/** Decimal numbers as they are printed and read. */
module Decimals {

  predicate AllDigits(s: string) {
    forall i :: 0 <= i < |s| ==> '0' <= s[i] <= '9'
  }

  function Decimal(s: string): nat
    requires AllDigits(s)
  {
    if s == "" then 0
    else
      var last := s[|s| - 1];
      10 * Decimal(s[..|s| - 1]) + (last as int - '0' as int)
  }

  function Digits(n: nat): string {
    (if n < 10 then [] else Digits(n / 10)) + [('0' as int + n % 10) as char]
  }

  function Power10(k: nat): (p: nat)
    ensures p > 0
  {
    if k == 0 then 1 else 10 * Power10(k - 1)
  }

  lemma DivideTwice(n: nat, p: nat)
    requires p > 0
    ensures n / 10 / p == n / (10 * p)
  {
    var q, r := n / 10 / p, n / 10 % p;
    var d, rest := 10 * p, 10 * r + n % 10;
    assert n == d * q + rest by {
      assert n / 10 == p * q + r;
      assert 10 * (p * q) == d * q;
    }
    OneQuotient(d, n / d, n % d, q, rest);
  }

  /** A number is divided in only one way. */
  lemma OneQuotient(d: nat, q: int, r: nat, q': int, r': nat)
    requires r < d && r' < d && d * q + r == d * q' + r'
    ensures q == q'
  {
    var z := q - q';
    assert d * z == r' - r;
    Multiples(d, z);
  }

  lemma Multiples(d: nat, z: int)
    ensures z >= 1 ==> d * z >= d
    ensures z <= -1 ==> d * z + d <= 0
  {
  }

  /** Printing, exactly: as few digits as the number needs, each with its weight, the highest first. */
  lemma {:induction false} DigitsArePositional(n: nat)
    ensures |Digits(n)| > 0 && n < Power10(|Digits(n)|) && (n > 0 ==> Power10(|Digits(n)| - 1) <= n)
    ensures forall i :: 0 <= i < |Digits(n)| ==>
              Digits(n)[i] as int == '0' as int + n / Power10(|Digits(n)| - 1 - i) % 10
  {
    if n >= 10 {
      DigitsArePositional(n / 10);
      var front, m := Digits(n / 10), |Digits(n)|;
      forall i | 0 <= i < m - 1 ensures Digits(n)[i] as int == '0' as int + n / Power10(m - 1 - i) % 10 {
        DivideTwice(n, Power10(m - 2 - i));
      }
    }
  }

  /** Reading undoes printing, and printed numbers have no leading zero. */
  lemma {:induction false} PrintedIsRead(n: nat)
    ensures AllDigits(Digits(n)) && Decimal(Digits(n)) == n && (n > 0 ==> Digits(n)[0] != '0')
  {
    var s := Digits(n);
    assert s[|s| - 1] as int == '0' as int + n % 10;
    if n >= 10 {
      PrintedIsRead(n / 10);
      assert s[..|s| - 1] == Digits(n / 10);
    } else {
      assert s[..0] == "";
    }
  }

  /** Leading zeros are not read. */
  lemma {:induction false} ZerosInFront(s: string)
    requires AllDigits(s)
    ensures AllDigits("0" + s) && Decimal("0" + s) == Decimal(s)
  {
    var z := "0" + s;
    assert forall i :: 0 < i < |z| ==> z[i] == s[i - 1];
    if s != "" {
      ZerosInFront(s[..|s| - 1]);
      assert z[..|z| - 1] == "0" + s[..|s| - 1];
    } else {
      assert z[..0] == "";
    }
  }

  /** Every text of digits is a printed number behind zeros, so that these two facts say how all of them are read. */
  lemma {:induction false} EveryTextIsPrinted(s: string) returns (zeros: string)
    requires AllDigits(s) && s != ""
    ensures (forall i :: 0 <= i < |zeros| ==> zeros[i] == '0') && s == zeros + Digits(Decimal(s))
  {
    var n := |s| - 1;
    var front := s[..n];
    AppendDigit(front, s[n]);
    assert s == front + [s[n]];
    if front == "" || Decimal(front) == 0 {
      zeros := front;
      if front != "" {
        var more := EveryTextIsPrinted(front);
        assert front == more + "0";
      }
    } else {
      zeros := EveryTextIsPrinted(front);
    }
  }

  lemma AppendDigit(s: string, c: char)
    requires AllDigits(s) && '0' <= c <= '9'
    ensures AllDigits(s + [c]) && Decimal(s + [c]) == 10 * Decimal(s) + (c as int - '0' as int)
    ensures Digits(Decimal(s + [c])) == (if s == "" || Decimal(s) == 0 then "" else Digits(Decimal(s))) + [c]
    ensures Digits(0) == "0"
  {
    assert (s + [c])[..|s|] == s;
    var n, d := Decimal(s), c as int - '0' as int;
    assert (10 * n + d) / 10 == n && (10 * n + d) % 10 == d;
    assert Decimal("") == 0;
  }
}
