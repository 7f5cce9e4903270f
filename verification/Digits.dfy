/** Numbers as text, and text cut at separators. */
module Digits {
  import opened Wrappers

  const DIGITS: string := "0123456789abcdef"

  function Digit(d: nat): char
    requires d < 16
  {
    DIGITS[d]
  }

  /** `n` in the given base, without leading zeros. */
  function Show(n: nat, base: nat): string
    requires 2 <= base <= 16
  {
    if n < base then [Digit(n)] else Show(n / base, base) + [Digit(n % base)]
  }

  function Value(c: char): nat {
    if '0' <= c <= '9' then (c - '0') as nat else if 'a' <= c <= 'f' then (c - 'a') as nat + 10 else 0
  }

  function Read(s: string, base: nat): nat {
    if s == "" then 0 else Read(s[..|s| - 1], base) * base + Value(s[|s| - 1])
  }

  predicate IsDigit(c: char, base: nat) {
    ('0' <= c <= '9' || 'a' <= c <= 'f') && Value(c) < base
  }

  predicate Numeral(s: string, base: nat) {
    s != "" && forall i :: 0 <= i < |s| ==> IsDigit(s[i], base)
  }

  lemma DigitValue(d: nat, base: nat)
    requires d < base <= 16
    ensures Value(Digit(d)) == d && IsDigit(Digit(d), base)
  {
  }

  /** Reading back the digits of a number gives the number. */
  lemma {:induction false} ReadShow(n: nat, base: nat)
    requires 2 <= base <= 16
    ensures Read(Show(n, base), base) == n && Numeral(Show(n, base), base)
  {
    hide Show, Read, Value, IsDigit, Digit, Numeral;
    var q, r := Unfold(n, base);
    DigitValue(r, base);
    if n < base {
      ReadLast("", Digit(n), base);
    } else {
      ReadShow(q, base);
      ReadLast(Show(q, base), Digit(r), base);
    }
  }

  lemma Unfold(n: nat, base: nat) returns (q: nat, r: nat)
    requires 2 <= base <= 16
    ensures n == q * base + r && r < base
    ensures if n < base then q == 0 && Show(n, base) == "" + [Digit(n)]
            else q < n && Show(n, base) == Show(q, base) + [Digit(r)]
  {
    q, r := n / base, n % base;
    Divide(n, base);
    hide Digit;
    assert n < base ==> Show(n, base) == "" + [Digit(n)];
  }

  lemma Divide(n: nat, base: nat)
    requires 2 <= base
    ensures n == n / base * base + n % base
    ensures if n < base then n / base == 0 else n / base < n
  {
  }

  lemma ReadLast(s: string, c: char, base: nat)
    requires IsDigit(c, base) && (s == "" || Numeral(s, base))
    ensures Read(s + [c], base) == Read(s, base) * base + Value(c)
    ensures Read("", base) == 0
    ensures Numeral(s + [c], base)
  {
    hide Value, IsDigit;
    assert (s + [c])[..|s|] == s;
  }

  function Power(base: nat, k: nat): nat {
    if k == 0 then 1 else base * Power(base, k - 1)
  }

  /** A number below base^k has at most k digits. */
  lemma {:induction false} ShowLength(n: nat, base: nat, k: nat)
    requires 2 <= base <= 16 && 1 <= k && n < Power(base, k)
    ensures 1 <= |Show(n, base)| <= k
    decreases k
  {
    if n >= base {
      Quotient(n, base, Power(base, k - 1));
      assert n / base >= 1 && Power(base, 0) == 1;
      ShowLength(n / base, base, k - 1);
    }
  }

  lemma Quotient(n: nat, b: nat, m: nat)
    requires 0 < b && n < b * m
    ensures n / b < m
  {
  }

  /* ---------- separators ---------- */

  function Split(s: string, c: char): (r: seq<string>)
    ensures |r| >= 1
  {
    if s == "" then [""]
    else
      var r := Split(s[1..], c);
      if s[0] == c then [""] + r else [[s[0]] + r[0]] + r[1..]
  }

  lemma {:induction false} SplitNone(a: string, c: char)
    requires c !in a
    ensures Split(a, c) == [a]
  {
    if a != "" {
      SplitNone(a[1..], c);
      assert [a[0]] + a[1..] == a;
    }
  }

  lemma {:induction false} SplitAt(a: string, c: char, b: string)
    requires c !in a
    ensures Split(a + [c] + b, c) == [a] + Split(b, c)
  {
    if a == "" {
      assert a + [c] + b == [c] + b && ([c] + b)[1..] == b;
    } else {
      assert (a + [c] + b)[1..] == a[1..] + [c] + b;
      SplitAt(a[1..], c, b);
      assert [a[0]] + a[1..] == a;
    }
  }

  lemma {:induction false} SplitEnd(a: string, c: char, b: string)
    requires c !in b
    ensures Split(a + [c] + b, c) == Split(a, c) + [b]
  {
    if a == "" {
      assert a + [c] + b == [c] + b && ([c] + b)[1..] == b;
      SplitNone(b, c);
    } else {
      assert (a + [c] + b)[1..] == a[1..] + [c] + b;
      SplitEnd(a[1..], c, b);
    }
  }

  /* ---------- the line an address is printed on ---------- */

  function Line(body: string, port: nat): string {
    "[" + body + "]" + ":" + Show(port, 10) + "\n"
  }

  /** The text between the brackets of a printed line, and the number behind them. */
  function Unline(s: string): Option<(string, nat)>
    requires |s| >= 1
  {
    var r := Split(s[1..], ']');
    if s[0] != '[' || |r| != 2 then None else Unport(r[0], r[1])
  }

  function Unport(body: string, tail: string): Option<(string, nat)> {
    var n := |tail| - 1;
    if n < 1 || tail[0] != ':' || tail[n] != '\n' || !Numeral(tail[1..n], 10) then None
    else Some((body, Read(tail[1..n], 10)))
  }

  lemma LineRead(body: string, port: nat)
    requires ']' !in body
    ensures Unline(Line(body, port)) == Some((body, port))
  {
    hide Show, Read, Split, Numeral;
    var digits := Show(port, 10);
    ReadShow(port, 10);
    var tail := ":" + digits + "\n";
    assert Line(body, port)[1..] == body + [']'] + tail;
    NoOther(digits, 10, ']');
    SplitAt(body, ']', tail);
    SplitNone(tail, ']');
    assert tail[1..|tail| - 1] == digits;
  }

  lemma LineParts(body: string, port: nat)
    ensures Line(body, port) == ((("[" + body) + "]") + ":") + Show(port, 10) + "\n"
  {
  }

  lemma NoOther(s: string, base: nat, c: char)
    requires Numeral(s, base) && c in "[]:.\n"
    ensures c !in s
  {
  }
}
