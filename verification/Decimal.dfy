/** Decimal text of integers, as BigInt prints and reads it, and zero padding. */
module Decimal {

  predicate IsDigit(c: char) { '0' <= c <= '9' }

  predicate AllDigits(s: string) { forall i | 0 <= i < |s| :: IsDigit(s[i]) }

  function DigitValue(c: char): nat
    requires IsDigit(c)
  {
    c as int - '0' as int
  }

  function DigitChar(d: nat): char
    requires d < 10
  {
    ('0' as int + d) as char
  }

  function Print(n: nat): string {
    if n < 10 then [DigitChar(n)] else Print(n / 10) + [DigitChar(n % 10)]
  }

  /** A possibly negative integer, with the sign in front. */
  function PrintInt(n: int): string {
    if n < 0 then "-" + Print(-n) else Print(n)
  }

  function Read(s: string): nat
    requires AllDigits(s)
  {
    if s == "" then 0 else 10 * Read(s[..|s| - 1]) + DigitValue(s[|s| - 1])
  }

  function Zeros(k: nat): (z: string)
    ensures |z| == k && AllDigits(z)
  {
    seq(k, _ => '0')
  }

  function PadStart(s: string, width: nat): string {
    if |s| >= width then s else Zeros(width - |s|) + s
  }

  /** No redundant leading zero. */
  predicate Canonical(s: string) {
    s != "" && AllDigits(s) && (|s| > 1 ==> s[0] != '0')
  }

  lemma {:induction false} PrintThenRead(n: nat)
    ensures Canonical(Print(n)) && Read(Print(n)) == n
    ensures Print(n)[0] == '0' <==> n == 0
  {
    if n >= 10 {
      PrintThenRead(n / 10);
      assert Print(n)[..|Print(n)| - 1] == Print(n / 10);
    }
  }

  /** The digits are the usual ones. */
  lemma DigitsAreDecimal(d: nat)
    requires d < 10
    ensures Print(d) == ["0123456789"[d]]
  {
  }

  /** The first digit is the most significant one. */
  lemma {:induction false} FirstDigitCountsMost(c: char, s: string)
    requires IsDigit(c) && AllDigits(s)
    ensures AllDigits([c] + s) && Read([c] + s) == DigitValue(c) * Pow10(|s|) + Read(s)
  {
    var all := [c] + s;
    if s == "" {
      assert all[..0] == "";
    } else {
      var n := |s| - 1;
      FirstDigitCountsMost(c, s[..n]);
      assert all[..n + 1] == [c] + s[..n];
      Spread(DigitValue(c), Pow10(n), Read(s[..n]));
    }
  }

  lemma Spread(c: nat, span: nat, low: nat)
    ensures 10 * (c * span + low) == c * (10 * span) + 10 * low
  {
  }

  lemma {:induction false} ReadThenPrint(s: string)
    requires Canonical(s)
    ensures Print(Read(s)) == s
  {
    var t := s[..|s| - 1];
    if t == "" {
      assert s == [s[0]];
      assert Read(t) == 0;
    } else {
      ReadThenPrint(t);
      PrintThenRead(Read(t));
      assert Read(s) == 10 * Read(t) + DigitValue(s[|s| - 1]);
      assert s == t + [s[|s| - 1]];
    }
  }

  lemma {:induction false} ReadSkipsZeros(k: nat, s: string)
    requires AllDigits(s)
    ensures AllDigits(Zeros(k) + s) && Read(Zeros(k) + s) == Read(s)
  {
    var z := Zeros(k) + s;
    if s != "" {
      ReadSkipsZeros(k, s[..|s| - 1]);
      assert z[..|z| - 1] == Zeros(k) + s[..|s| - 1];
    } else if k > 0 {
      ReadSkipsZeros(k - 1, s);
      assert z[..|z| - 1] == Zeros(k - 1) + s;
    }
  }

  lemma ReadPadded(n: nat, width: nat)
    ensures AllDigits(PadStart(Print(n), width)) && Read(PadStart(Print(n), width)) == n
  {
    PrintThenRead(n);
    if |Print(n)| < width {
      ReadSkipsZeros(width - |Print(n)|, Print(n));
    }
  }

  lemma PadOneMore(s: string, width: nat)
    requires |s| <= width
    ensures PadStart(s, width + 1) == Zeros(1) + PadStart(s, width)
  {
    if |s| < width {
      ZerosOneMore(width - |s|);
      Regroup(Zeros(1), Zeros(width - |s|), s);
    }
  }

  lemma ZerosOneMore(k: nat)
    ensures Zeros(k + 1) == Zeros(1) + Zeros(k)
  {
  }

  lemma Regroup(a: string, b: string, c: string)
    ensures a + b + c == a + (b + c)
  {
  }

  /** Padding restores exactly the zeros that reading drops. */
  lemma {:induction false} PadRestores(s: string)
    requires s != "" && AllDigits(s)
    ensures |Print(Read(s))| <= |s| && PadStart(Print(Read(s)), |s|) == s
  {
    if Canonical(s) {
      ReadThenPrint(s);
    } else {
      var t := s[1..];
      ReadSkipsZeros(1, t);
      assert s == Zeros(1) + t;
      PadRestores(t);
      PadOneMore(Print(Read(t)), |t|);
    }
  }

  lemma {:induction false} ReadBound(s: string, width: nat, bound: nat)
    requires AllDigits(s) && |s| == width && bound == Pow10(width)
    ensures Read(s) < bound
  {
    if s != "" {
      ReadBound(s[..|s| - 1], width - 1, Pow10(width - 1));
    }
  }

  function Pow10(k: nat): nat { if k == 0 then 1 else 10 * Pow10(k - 1) }

  lemma {:induction false} PrintLength(n: nat, k: nat)
    requires k > 0
    ensures |Print(n)| <= k <==> n < Pow10(k)
  {
    if n >= 10 && k > 1 {
      PrintLength(n / 10, k - 1);
    } else if n >= 10 {
      assert Print(n / 10) != "";
    } else {
      Pow10Positive(k - 1);
    }
  }

  lemma {:induction false} Pow10Positive(k: nat)
    ensures Pow10(k) >= 1
  {
    if k > 0 { Pow10Positive(k - 1); }
  }
}
