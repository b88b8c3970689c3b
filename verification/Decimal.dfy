/** Decimal notation of integers. */
module Decimal {
  import opened Prelude

  function Digit(d: nat): char
    requires d < 10
  {
    (48 + d) as char
  }

  function DigitValue(c: char): Option<nat> {
    if '0' <= c <= '9' then Some(c as int - 48) else None
  }

  function PrintNat(n: nat): (s: string)
    ensures s != []
  {
    if n < 10 then [Digit(n)] else PrintNat(n / 10) + [Digit(n % 10)]
  }

  function PrintInt(n: int): string {
    if n < 0 then "-" + PrintNat(-n) else PrintNat(n)
  }

  /** Zero-padded decimal of fixed width. */
  function Padded(n: nat, width: nat): (s: string)
    ensures |s| == width
    decreases width
  {
    if width == 0 then [] else Padded(n / 10, width - 1) + [Digit(n % 10)]
  }

  function Pow10(d: nat): (p: nat)
    ensures p > 0
  {
    if d == 0 then 1 else 10 * Pow10(d - 1)
  }

  /** The number some digits stand for. */
  function ReadNat(s: string): Option<nat> {
    if s == [] then Some(0)
    else
      match (ReadNat(s[..|s| - 1]), DigitValue(s[|s| - 1]))
      case (Some(v), Some(d)) => Some(v * 10 + d)
      case _ => None
  }

  function ReadInt(s: string): Option<int> {
    if s == [] then None
    else if s[0] == '-' then
      match ReadNat(s[1..])
      case Some(v) => Some(-(v as int))
      case None => None
    else
      match ReadNat(s)
      case Some(v) => Some(v as int)
      case None => None
  }

  lemma ReadSnoc(s: string, v: nat, d: nat)
    requires ReadNat(s) == Some(v) && d < 10
    ensures ReadNat(s + [Digit(d)]) == Some(v * 10 + d)
  {
    assert (s + [Digit(d)])[..|s|] == s;
  }

  /** A printed number reads back as itself, is all digits and has no leading zero. */
  lemma {:induction false} PrintNatReadsBack(n: nat)
    ensures ReadNat(PrintNat(n)) == Some(n)
    ensures PrintNat(n)[0] == '0' <==> n == 0
    ensures '-' !in PrintNat(n) && (n == 0 ==> |PrintNat(n)| == 1)
    decreases n
  {
    if n < 10 {
      ReadSnoc([], 0, n);
      assert [] + [Digit(n)] == [Digit(n)];
    } else {
      PrintNatReadsBack(n / 10);
      ReadSnoc(PrintNat(n / 10), n / 10, n % 10);
    }
  }

  lemma PrintIntReadsBack(n: int)
    ensures ReadInt(PrintInt(n)) == Some(n)
  {
    if n < 0 {
      PrintNatReadsBack(-n);
      assert PrintInt(n)[1..] == PrintNat(-n);
    } else {
      PrintNatReadsBack(n);
    }
  }

  /** Distinct integers print apart. */
  lemma PrintIntInjective(a: int, b: int)
    requires PrintInt(a) == PrintInt(b)
    ensures a == b
  {
    PrintIntReadsBack(a);
    PrintIntReadsBack(b);
  }

  /** A padded number that fits its width reads back as itself. */
  lemma {:induction false} PaddedReadsBack(n: nat, width: nat)
    requires n < Pow10(width)
    ensures ReadNat(Padded(n, width)) == Some(n)
    decreases width
  {
    if width == 0 {
    } else {
      PaddedReadsBack(n / 10, width - 1);
      ReadSnoc(Padded(n / 10, width - 1), n / 10, n % 10);
    }
  }
}
