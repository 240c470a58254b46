/** Decimal numbers and white space, as the panel reads and writes them. */
module Texts {

  import opened Wrappers

  predicate IsSpace(c: char) {
    c in " \t\n\r\U{000B}\U{000C}\U{0085}\U{00A0}\U{1680}\U{2028}\U{2029}\U{202F}\U{205F}\U{3000}" ||
    '\U{2000}' <= c <= '\U{200A}'
  }

  function TrimSpace(s: string): (r: string)
    ensures |r| <= |s|
  {
    if s == "" then ""
    else if IsSpace(s[0]) then TrimSpace(s[1..])
    else if IsSpace(s[|s| - 1]) then TrimSpace(s[..|s| - 1])
    else s
  }

  ghost predicate AllSpace(s: string) {
    forall i :: 0 <= i < |s| ==> IsSpace(s[i])
  }

  lemma Around(c: char, a: string, t: string, b: string, d: char)
    ensures [c] + (a + t + b) == [c] + a + t + b
    ensures a + t + b + [d] == a + t + (b + [d])
  {
  }

  lemma SpaceMore(a: string, c: char)
    requires AllSpace(a) && IsSpace(c)
    ensures AllSpace([c] + a) && AllSpace(a + [c])
  {
    hide IsSpace;
  }

  /** Trimming takes white space off both ends, and nothing else. */
  lemma {:induction false} TrimIs(s: string) returns (a: string, b: string)
    ensures s == a + TrimSpace(s) + b && AllSpace(a) && AllSpace(b)
    ensures TrimSpace(s) != "" ==> !IsSpace(TrimSpace(s)[0]) && !IsSpace(TrimSpace(s)[|TrimSpace(s)| - 1])
    decreases |s|
  {
    hide IsSpace;
    if s == "" {
      a, b := "", "";
    } else if IsSpace(s[0]) {
      hide AllSpace;
      a, b := TrimIs(s[1..]);
      assert s == [s[0]] + s[1..];
      Around(s[0], a, TrimSpace(s), b, ' ');
      SpaceMore(a, s[0]);
      a := [s[0]] + a;
    } else if IsSpace(s[|s| - 1]) {
      hide AllSpace;
      a, b := TrimIs(s[..|s| - 1]);
      assert s == s[..|s| - 1] + [s[|s| - 1]];
      Around(' ', a, TrimSpace(s), b, s[|s| - 1]);
      SpaceMore(b, s[|s| - 1]);
      b := b + [s[|s| - 1]];
    } else {
      a, b := "", "";
      assert "" + s + "" == s;
    }
  }

  function Digit(c: char): Option<nat> {
    if '0' <= c <= '9' then Some(c as nat - '0' as nat) else None
  }

  /** Digits only, and at least one; leading zeros parse. */
  function ParseNat(s: string): Option<nat> {
    if s == [] then None
    else if |s| == 1 then Digit(s[0])
    else match (ParseNat(s[..|s| - 1]), Digit(s[|s| - 1]))
      case (Some(hi), Some(lo)) => Some(10 * hi + lo)
      case _ => None
  }

  function Itoa(n: int): (s: string)
    ensures s != ""
    decreases if n < 0 then 1 else 0, n
  {
    if n < 0 then "-" + Itoa(-n)
    else if n < 10 then [('0' as int + n) as char]
    else Itoa(n / 10) + [('0' as int + n % 10) as char]
  }

  lemma {:induction false} ItoaParses(n: nat)
    ensures ParseNat(Itoa(n)) == Some(n)
  {
    if n >= 10 {
      ItoaParses(n / 10);
      var d := [('0' as int + n % 10) as char];
      assert Itoa(n) == Itoa(n / 10) + d;
      assert (Itoa(n / 10) + d)[..|Itoa(n)| - 1] == Itoa(n / 10);
    }
  }

  lemma ItoaInjective(m: nat, n: nat)
    requires Itoa(m) == Itoa(n)
    ensures m == n
  {
    ItoaParses(m);
    ItoaParses(n);
  }

  function Ten(k: nat): nat {
    if k == 0 then 1 else 10 * Ten(k - 1)
  }

  /** A numeral's value by place: the first digit weighs most. */
  function Value(s: string): int {
    if s == "" then 0 else (s[0] as int - '0' as int) * Ten(|s| - 1) + Value(s[1..])
  }

  lemma {:induction false} ValuePush(s: string, c: char)
    ensures Value(s + [c]) == 10 * Value(s) + (c as int - '0' as int)
  {
    if s == "" {
      assert s + [c] == [c];
    } else {
      assert (s + [c])[1..] == s[1..] + [c];
      ValuePush(s[1..], c);
    }
  }

  /** What is printed has the number's value, in digits, without a leading zero. */
  lemma {:induction false} ItoaValue(n: nat)
    ensures Value(Itoa(n)) == n && (Itoa(n)[0] == '0' ==> n == 0)
    ensures forall i :: 0 <= i < |Itoa(n)| ==> '0' <= Itoa(n)[i] <= '9'
  {
    if n >= 10 {
      ItoaValue(n / 10);
      ValuePush(Itoa(n / 10), ('0' as int + n % 10) as char);
    } else {
      assert Itoa(n)[1..] == "" && Ten(0) == 1;
    }
  }

  function Zeros(k: nat): (s: string)
    ensures |s| == k && forall i :: 0 <= i < k ==> s[i] == '0'
  {
    seq(k, i => '0')
  }

  lemma {:induction false} ZerosParse(k: nat, s: string, n: nat)
    requires ParseNat(s) == Some(n)
    ensures ParseNat(Zeros(k) + s) == Some(n)
    decreases |s|
  {
    if |s| == 1 {
      ZerosThenDigit(k, s[0]);
      assert [s[0]] == s;
    } else {
      var front := s[..|s| - 1];
      ZerosParse(k, front, ParseNat(front).value);
      assert (Zeros(k) + s)[..k + |s| - 1] == Zeros(k) + front;
    }
  }

  lemma {:induction false} ZerosThenDigit(k: nat, c: char)
    requires Digit(c).Some?
    ensures ParseNat(Zeros(k) + [c]) == Digit(c)
  {
    if k == 0 {
      assert Zeros(0) + [c] == [c];
    } else {
      ZerosThenDigit(k - 1, '0');
      assert (Zeros(k) + [c])[..k] == Zeros(k) == Zeros(k - 1) + ['0'];
    }
  }

  lemma DigitIsDecimal(c: char)
    requires Digit(c).Some?
    ensures Itoa(Digit(c).value) == [c]
  {
  }

  /** One more digit after a number, or after zeros. */
  lemma DigitAfter(j: nat, hi: nat, c: char) returns (k: nat)
    requires Digit(c).Some?
    ensures Zeros(j) + Itoa(hi) + [c] == Zeros(k) + Itoa(10 * hi + Digit(c).value)
  {
    DigitIsDecimal(c);
    if hi == 0 {
      k := j + 1;
      assert Itoa(0) == ['0'] && Zeros(j) + ['0'] == Zeros(k);
    } else {
      k := j;
      assert (10 * hi + Digit(c).value) / 10 == hi;
      assert Itoa(10 * hi + Digit(c).value) == Itoa(hi) + [c];
      hide Itoa, Digit;
      assert Zeros(j) + Itoa(hi) + [c] == Zeros(j) + (Itoa(hi) + [c]);
    }
  }

  /** What parses is a decimal number, perhaps with zeros before it. */
  lemma {:induction false} ParsedIsDecimal(s: string) returns (k: nat)
    requires ParseNat(s).Some?
    ensures s == Zeros(k) + Itoa(ParseNat(s).value)
    decreases |s|
  {
    hide Itoa, Digit;
    if |s| == 1 {
      k := 0;
      DigitIsDecimal(s[0]);
      assert s == [s[0]] && Zeros(0) + s == s;
    } else {
      var front := s[..|s| - 1];
      var j := ParsedIsDecimal(front);
      assert s == front + [s[|s| - 1]];
      k := DigitAfter(j, ParseNat(front).value, s[|s| - 1]);
    }
  }

  /** A text is read as a number if and only if it is the number printed, perhaps with zeros
      before it. */
  ghost predicate Numeral(s: string, n: nat) {
    exists k: nat :: s == Zeros(k) + Itoa(n)
  }

  lemma NumeralIff(s: string, n: nat)
    ensures ParseNat(s) == Some(n) <==> Numeral(s, n)
  {
    if ParseNat(s) == Some(n) {
      var k := ParsedIsDecimal(s);
    }
    if Numeral(s, n) {
      var k: nat :| s == Zeros(k) + Itoa(n);
      ItoaParses(n);
      ZerosParse(k, Itoa(n), n);
    }
  }

  /** Digits are not white space, nor any of the separators the panel splits on. */
  lemma {:induction false} ItoaDigits(n: nat)
    ensures forall c :: c in Itoa(n) ==> '0' <= c <= '9'
  {
    if n >= 10 {
      ItoaDigits(n / 10);
    }
  }

  // ---------- Lists with a separator ----------

  function Split(s: string, sep: char): (r: seq<string>)
    ensures |r| >= 1
  {
    if s == "" then [""]
    else
      var rest := Split(s[1..], sep);
      if s[0] == sep then [""] + rest else [[s[0]] + rest[0]] + rest[1..]
  }

  /** One character of the list at a time. */
  lemma SplitStep(c: char, rest: string, sep: char)
    ensures Split([c] + rest, sep) ==
      if c == sep then [""] + Split(rest, sep) else [[c] + Split(rest, sep)[0]] + Split(rest, sep)[1..]
  {
    assert ([c] + rest)[1..] == rest;
  }

  /** Growing the first of two lists, apart or joined. */
  lemma FirstGrows(x: seq<string>, y: seq<string>, head: string)
    requires |x| >= 1
    ensures [head + x[0]] + x[1..] + y == [head + (x + y)[0]] + (x + y)[1..]
    ensures [""] + x + y == [""] + (x + y)
  {
  }

  lemma HeadApart(a: string, rest: string)
    requires a != ""
    ensures [a[0]] + a[1..] == a && [a[0]] + (a[1..] + rest) == a + rest
  {
  }

  lemma {:induction false} SplitConcat(a: string, b: string, sep: char)
    ensures Split(a + ([sep] + b), sep) == Split(a, sep) + Split(b, sep)
  {
    if a == "" {
      assert a + ([sep] + b) == [sep] + b;
      SplitStep(sep, b, sep);
    } else {
      hide Split;
      var tail, rest := a[1..], [sep] + b;
      SplitConcat(tail, b, sep);
      SplitStep(a[0], tail, sep);
      SplitStep(a[0], tail + rest, sep);
      HeadApart(a, rest);
      FirstGrows(Split(tail, sep), Split(b, sep), [a[0]]);
    }
  }

  lemma {:induction false} SplitNone(s: string, sep: char)
    requires sep !in s
    ensures Split(s, sep) == [s]
  {
    if s != "" {
      SplitNone(s[1..], sep);
      assert [s[0]] + s[1..] == s;
    }
  }

  /** Where a character first stands, or the length. */
  function IndexOf(s: string, c: char): (n: nat)
    ensures n <= |s|
    ensures n < |s| ==> s[n] == c
    ensures c !in s[..n]
  {
    if s == "" || s[0] == c then 0
    else
      var n := IndexOf(s[1..], c);
      assert s[..n + 1] == [s[0]] + s[1..][..n];
      n + 1
  }

  lemma {:induction false} IndexOfSkips(a: string, b: string, c: char)
    requires c !in a
    ensures IndexOf(a + b, c) == |a| + IndexOf(b, c)
  {
    if a == "" {
      assert a + b == b;
    } else {
      assert (a + b)[1..] == a[1..] + b;
      IndexOfSkips(a[1..], b, c);
    }
  }

  lemma {:induction false} IndexOfStops(a: string, b: string, c: char)
    requires c in a
    ensures IndexOf(a, c) < |a| && IndexOf(a + b, c) == IndexOf(a, c)
  {
    if a[0] != c {
      assert (a + b)[1..] == a[1..] + b;
      IndexOfStops(a[1..], b, c);
    }
  }
}
