/** Shared value types and the few string operations the Go code takes from `strings` and `strconv`. */
module Common {

  datatype Option<+T> = None | Some(value: T)

  datatype Result<+T, +E> = Ok(value: T) | Err(error: E)

  /** Position of the first `c` in `s`, or `|s|` when there is none. */
  function IndexOf(s: string, c: char): (i: nat)
    ensures i <= |s|
    ensures forall j :: 0 <= j < i ==> s[j] != c
    ensures i < |s| ==> s[i] == c
  {
    if s == "" || s[0] == c then 0 else 1 + IndexOf(s[1..], c)
  }

  /** Go's string order: bytewise, which for UTF-8 is the order of code points. */
  predicate StringLess(a: string, b: string)
  {
    b != "" && (a == "" || a[0] < b[0] || (a[0] == b[0] && StringLess(a[1..], b[1..])))
  }

  lemma {:induction false} StringLessTotal(a: string, b: string)
    ensures StringLess(a, b) || a == b || StringLess(b, a)
    ensures !(StringLess(a, b) && StringLess(b, a))
    ensures !StringLess(a, a)
  {
    if a != "" {
      StringLessTotal(a[1..], a[1..]);
      if b != "" {
        StringLessTotal(a[1..], b[1..]);
        assert a == [a[0]] + a[1..] && b == [b[0]] + b[1..];
      }
    }
  }

  lemma {:induction false} StringLessTransitive(a: string, b: string, c: string)
    requires StringLess(a, b) && StringLess(b, c)
    ensures StringLess(a, c)
  {
    if a != "" && a[0] == b[0] && b[0] == c[0] {
      StringLessTransitive(a[1..], b[1..], c[1..]);
    }
  }

  predicate IsDigit(c: char) { '0' <= c <= '9' }

  function DigitChar(d: nat): (c: char)
    requires d < 10
    ensures IsDigit(c)
  {
    ('0' as int + d) as char
  }

  /** `strconv.Itoa` on a non-negative number. */
  function Decimal(n: nat): (s: string)
    ensures s != ""
    ensures forall i :: 0 <= i < |s| ==> IsDigit(s[i])
  {
    if n < 10 then [DigitChar(n)] else Decimal(n / 10) + [DigitChar(n % 10)]
  }

  function DigitsValue(s: string): nat
    requires forall i :: 0 <= i < |s| ==> IsDigit(s[i])
  {
    if s == "" then 0
    else
      assert IsDigit(s[|s| - 1]);
      DigitsValue(s[..|s| - 1]) * 10 + (s[|s| - 1] as int - '0' as int)
  }

  /** `strconv.ParseUint(s, 10, 16)`: digits only, no sign, no empty string, at most 65535. */
  function ParseUint16(s: string): Option<nat>
  {
    if s == "" || exists i :: 0 <= i < |s| && !IsDigit(s[i]) then None
    else if DigitsValue(s) > 65535 then None
    else Some(DigitsValue(s))
  }

  lemma {:induction false} DecimalValue(n: nat)
    ensures DigitsValue(Decimal(n)) == n
  {
    if n >= 10 {
      DecimalValue(n / 10);
      assert Decimal(n)[..|Decimal(n)| - 1] == Decimal(n / 10);
    }
  }

  /** Printing then parsing a port number gives it back. */
  lemma ParseDecimal(n: nat)
    requires n <= 65535
    ensures ParseUint16(Decimal(n)) == Some(n)
  {
    DecimalValue(n);
  }

  /** Decimal notation, most significant digit first and without leading zeros. */
  lemma DecimalDigits(n: nat, d: nat)
    requires d < 10
    ensures Decimal(d) == ["0123456789"[d]]
    ensures n > 0 ==> Decimal(10 * n + d) == Decimal(n) + ["0123456789"[d]]
  {
    assert (10 * n + d) / 10 == n && (10 * n + d) % 10 == d;
  }

  function Zeros(k: nat): (z: string)
    ensures |z| == k && forall i :: 0 <= i < k ==> z[i] == '0'
  {
    seq(k, _ => '0')
  }

  lemma {:induction false} LeadingZeros(k: nat, s: string)
    requires forall i :: 0 <= i < |s| ==> IsDigit(s[i])
    ensures forall i :: 0 <= i < |Zeros(k) + s| ==> IsDigit((Zeros(k) + s)[i])
    ensures DigitsValue(Zeros(k) + s) == DigitsValue(s)
    decreases |s| + k
  {
    var t := Zeros(k) + s;
    if s != "" {
      LeadingZeros(k, s[..|s| - 1]);
      assert t[..|t| - 1] == Zeros(k) + s[..|s| - 1];
    } else if k > 0 {
      LeadingZeros(k - 1, "");
      assert t[..|t| - 1] == Zeros(k - 1) + "";
    }
  }

  lemma LastDigit(s: string) returns (d: nat)
    requires s != "" && forall i :: 0 <= i < |s| ==> IsDigit(s[i])
    ensures d < 10 && s == s[..|s| - 1] + ["0123456789"[d]]
    ensures DigitsValue(s) == 10 * DigitsValue(s[..|s| - 1]) + d
  {
    assert IsDigit(s[|s| - 1]);
    d := s[|s| - 1] as int - '0' as int;
    assert "0123456789"[d] == s[|s| - 1];
  }

  lemma OneMoreZero(k: nat, init: string, d: nat) returns (k': nat)
    requires d < 10 && init == Zeros(k) + Decimal(0)
    ensures init + ["0123456789"[d]] == Zeros(k') + Decimal(d)
  {
    k' := k + 1;
    DecimalDigits(0, 0);
    DecimalDigits(0, d);
    assert init == Zeros(k');
  }

  lemma {:induction false} ZerosInFront(s: string) returns (k: nat)
    requires s != "" && forall i :: 0 <= i < |s| ==> IsDigit(s[i])
    ensures s == Zeros(k) + Decimal(DigitsValue(s))
  {
    var init := s[..|s| - 1];
    var d := LastDigit(s);
    DecimalDigits(DigitsValue(init), d);
    if init == "" {
      k := 0;
      assert s == Zeros(0) + Decimal(d);
    } else {
      k := ZerosInFront(init);
      if DigitsValue(init) == 0 {
        k := OneMoreZero(k, init, d);
      }
    }
  }

  /** The texts ParseUint accepts for `n` are its decimal notation with any number of zeros in front. */
  lemma ParseUint16Iff(s: string, n: nat)
    ensures ParseUint16(s) == Some(n) <==> n <= 65535 && exists k: nat :: s == Zeros(k) + Decimal(n)
  {
    if ParseUint16(s) == Some(n) {
      var k := ZerosInFront(s);
    }
    if k: nat :| s == Zeros(k) + Decimal(n) {
      LeadingZeros(k, Decimal(n));
      DecimalValue(n);
    }
  }

  /** `a` precedes `b` where they first differ, an end counting as less than any character. */
  lemma {:induction false} StringLessIff(a: string, b: string)
    ensures StringLess(a, b) <==>
      exists i: nat :: i <= |a| && i < |b| && a[..i] == b[..i] && (i == |a| || a[i] < b[i])
  {
    if a != "" && b != "" && a[0] == b[0] {
      StringLessIff(a[1..], b[1..]);
      if i: nat :|
        i <= |a[1..]| && i < |b[1..]| && a[1..][..i] == b[1..][..i] && (i == |a[1..]| || a[1..][i] < b[1..][i]) {
        assert a[..i + 1] == [a[0]] + a[1..][..i] && b[..i + 1] == [b[0]] + b[1..][..i];
      }
      if i: nat :| i <= |a| && i < |b| && a[..i] == b[..i] && (i == |a| || a[i] < b[i]) {
        assert i > 0;
        assert a[1..][..i - 1] == a[..i][1..] && b[1..][..i - 1] == b[..i][1..];
      }
    } else if StringLess(a, b) {
      assert a[..0] == b[..0];
    }
  }
}
