/** Printing integers in decimal. */
module Decimals {
  import opened Common

  // ------------------------------------------------------------------ the notation

  const ZERO: int := '0' as int

  predicate IsDigit(c: char) {
    '0' <= c <= '9'
  }

  function DigitOf(d: nat): (c: char)
    requires d < 10
    ensures IsDigit(c) && c as int - ZERO == d
  {
    (ZERO + d) as char
  }

  /** The digits of `n`, without leading zeros. */
  function Digits(n: nat): (s: string)
    ensures s != ""
  {
    if n < 10 then [DigitOf(n)] else Digits(n / 10) + [DigitOf(n % 10)]
  }

  function Abs(v: int): nat {
    if v < 0 then -v else v
  }

  function Decimal(v: int): (s: string)
    ensures s != ""
  {
    if v < 0 then "-" + Digits(-v) else Digits(v)
  }

  // ------------------------------------------------------------------ what it means

  predicate AllDigits(s: string) {
    forall i | 0 <= i < |s| :: IsDigit(s[i])
  }

  function Eval(s: string): nat
    requires AllDigits(s)
  {
    if s == "" then 0 else 10 * Eval(s[..|s| - 1]) + (s[|s| - 1] as int - ZERO)
  }

  /** Digits without a superfluous leading zero. */
  predicate IsCanonical(s: string) {
    s != "" && AllDigits(s) && (|s| > 1 ==> s[0] != '0')
  }

  lemma {:induction false} DigitsMean(n: nat)
    ensures IsCanonical(Digits(n)) && Eval(Digits(n)) == n
    ensures n > 0 ==> Digits(n)[0] != '0'
    decreases n
  {
    if n >= 10 {
      DigitsMean(n / 10);
      assert Digits(n)[..|Digits(n)| - 1] == Digits(n / 10);
    } else {
      assert Digits(n)[..0] == "";
    }
  }

  lemma {:induction false} CanonicalIsDigits(s: string)
    requires IsCanonical(s)
    ensures s == Digits(Eval(s))
    ensures s[0] != '0' ==> Eval(s) > 0
    decreases |s|
  {
    if |s| > 1 {
      CanonicalIsDigits(s[..|s| - 1]);
      OneMoreDigit(s, Eval(s[..|s| - 1]));
    } else {
      OneDigit(s);
    }
  }

  lemma OneDigit(s: string)
    requires |s| == 1 && IsDigit(s[0])
    ensures Eval(s) == s[0] as int - ZERO && s == Digits(Eval(s))
  {
    assert s[..0] == "" && Eval("") == 0;
    DigitIs(s[0]);
  }

  lemma OneMoreDigit(s: string, n: nat)
    requires |s| > 1 && AllDigits(s) && n > 0
    requires s[..|s| - 1] == Digits(n) && Eval(s[..|s| - 1]) == n
    ensures Eval(s) > 0 && s == Digits(Eval(s))
  {
    var last := s[|s| - 1];
    DigitIs(last);
    DigitsSnoc(n, last as int - ZERO);
    assert s == s[..|s| - 1] + [last];
  }

  lemma DigitIs(c: char)
    requires IsDigit(c)
    ensures 0 <= c as int - ZERO < 10 && DigitOf(c as int - ZERO) == c
  {
  }

  lemma DigitsSnoc(n: nat, d: nat)
    requires n > 0 && d < 10
    ensures Digits(10 * n + d) == Digits(n) + [DigitOf(d)]
  {
    var m := 10 * n + d;
    assert m / 10 == n && m % 10 == d;
  }

  lemma DecimalExample()
    ensures Decimal(-205) == "-205" && Decimal(0) == "0"
  {
    assert Digits(2) == "2" && Digits(20) == "20" && Digits(205) == "205";
  }

  predicate IsDecimal(s: string, v: int) {
    if v < 0 then s != "" && s[0] == '-' && IsCanonical(s[1..]) && Eval(s[1..]) == -v
    else IsCanonical(s) && Eval(s) == v
  }

  /** `Decimal(v)` is the one canonical way to write `v`: a sign if and only if it is negative,
      no leading zeros, and the digits evaluate to its magnitude. */
  lemma DecimalIsTheOne(s: string, v: int)
    ensures IsDecimal(s, v) <==> s == Decimal(v)
  {
    DigitsMean(Abs(v));
    if v < 0 {
      assert Decimal(v)[1..] == Digits(-v);
      if IsDecimal(s, v) {
        CanonicalIsDigits(s[1..]);
        assert s == [s[0]] + s[1..];
      }
    } else if IsDecimal(s, v) {
      CanonicalIsDigits(s);
    }
  }

  lemma DifferentNumbersPrintDifferently(v: int, w: int)
    requires Decimal(v) == Decimal(w)
    ensures v == w
  {
    DecimalIsTheOne(Decimal(v), v);
    DecimalIsTheOne(Decimal(w), w);
    assert !IsDigit('-');
  }

  // ------------------------------------------------------------------ printing into a buffer

  /** Division that truncates toward zero, and its remainder, which has the sign of `a`. */
  function TruncatedQuotient(a: int): int {
    if a < 0 then -(-a / 10) else a / 10
  }

  function TruncatedRemainder(a: int): (r: int)
    ensures -10 < r < 10 && a == 10 * TruncatedQuotient(a) + r
  {
    a - 10 * TruncatedQuotient(a)
  }

  /** The table is mirrored, for the remainders of negative numbers. */
  const TABLE: string := "9876543210123456789"

  lemma TableMirrored(a: int)
    ensures |TABLE| == 19 && TABLE[9 + TruncatedRemainder(a)] == DigitOf(Abs(a) % 10)
    ensures Abs(TruncatedQuotient(a)) == Abs(a) / 10
  {
    var d := Abs(a) % 10;
    assert TruncatedRemainder(a) == if a < 0 then -d else d;
    TableAt(d);
  }

  lemma TableAt(d: nat)
    requires d < 10
    ensures |TABLE| == 19 && TABLE[9 + d] == DigitOf(d) && TABLE[9 - d] == DigitOf(d)
  {
    if d < 5 {
      assert d == 0 || d == 1 || d == 2 || d == 3 || d == 4;
    } else {
      assert d == 5 || d == 6 || d == 7 || d == 8 || d == 9;
    }
  }

  function Reversed(s: string): (r: string)
    ensures |r| == |s| && forall i | 0 <= i < |s| :: r[i] == s[|s| - 1 - i]
  {
    seq(|s|, i requires 0 <= i < |s| => s[|s| - 1 - i])
  }

  lemma ReversedTwice(s: string)
    ensures Reversed(Reversed(s)) == s
  {
  }

  lemma ReversedSign(s: string)
    ensures Reversed(Reversed(s) + ['-']) == "-" + s
  {
  }

  lemma ReversedDigits(n: nat)
    ensures Reversed(Digits(n)) == [DigitOf(n % 10)] + if n < 10 then "" else Reversed(Digits(n / 10))
  {
    if n >= 10 {
      ReversedSnoc(Digits(n / 10), DigitOf(n % 10));
    } else {
      ReversedOne(DigitOf(n));
    }
  }

  lemma ReversedSnoc(s: string, c: char)
    ensures Reversed(s + [c]) == [c] + Reversed(s)
  {
  }

  lemma ReversedOne(c: char)
    ensures Reversed([c]) == [c] + ""
  {
  }

  /** Reverses the first `n` characters in place. */
  method Reverse(buf: array<char>, n: nat)
    requires n <= buf.Length
    modifies buf
    ensures buf[..n] == Reversed(old(buf[..n]))
    ensures forall k | n <= k < buf.Length :: buf[k] == old(buf[k])
  {
    var lo, hi := 0, n;
    while hi - lo > 1
      invariant 0 <= lo <= n && lo + hi == n
      invariant forall k | 0 <= k < buf.Length ::
        buf[k] == if lo <= k < hi || k >= n then old(buf[k]) else old(buf[n - 1 - k])
    {
      hi := hi - 1;
      buf[lo], buf[hi] := buf[hi], buf[lo];
      lo := lo + 1;
    }
  }

  /** Puts the digits into the buffer, the last one first. */
  method PutDigits(buf: array<char>, v: int) returns (p: nat)
    requires |Digits(Abs(v))| <= buf.Length
    modifies buf
    ensures p == |Digits(Abs(v))| && buf[..p] == Reversed(Digits(Abs(v)))
    ensures forall k | p <= k < buf.Length :: buf[k] == old(buf[k])
  {
    var tmp, more := v, true;
    p := 0;
    while more
      invariant p <= buf.Length
      invariant Reversed(Digits(Abs(v))) == buf[..p] + if more then Reversed(Digits(Abs(tmp))) else ""
      invariant forall k | p <= k < buf.Length :: buf[k] == old(buf[k])
      decreases more, Abs(tmp)
    {
      TableMirrored(tmp);
      ReversedDigits(Abs(tmp));
      var lsd := TruncatedRemainder(tmp);
      ghost var printed := buf[..p];
      tmp := TruncatedQuotient(tmp);
      Regrouped(printed, [TABLE[9 + lsd]], if tmp != 0 then Reversed(Digits(Abs(tmp))) else "");
      buf[p] := TABLE[9 + lsd];
      p := p + 1;
      assert buf[..p] == printed + [TABLE[9 + lsd]];
      more := tmp != 0;
    }
  }

  /** Prints `v` with a terminating zero and returns the length without it. */
  method Digit2Str(buf: array<char>, v: int) returns (len: nat)
    requires |Decimal(v)| < buf.Length
    modifies buf
    ensures len == |Decimal(v)| && buf[..len] == Decimal(v) && buf[len] == '\0'
    ensures forall k | len < k < buf.Length :: buf[k] == old(buf[k])
  {
    ghost var digits := Digits(Abs(v));
    var p := PutDigits(buf, v);
    if v < 0 {
      buf[p] := '-';
      p := p + 1;
      assert buf[..p] == Reversed(digits) + ['-'];
      ReversedSign(digits);
    }
    buf[p] := '\0';
    ReversedTwice(digits);
    Reverse(buf, p);
    len := p;
  }
}
