/**
 One-time codes: the truncation of section 5.3 of RFC 4226 and the time window of section 5.2 of
 RFC 6238. The MAC is an arbitrary function of the counter that yields at least 20 bytes; the secret
 and the algorithm are part of it.
 */
module Totp {
  import opened Prelude
  import opened Decimal

  type Byte = n: nat | n < 256
  type Mac = nat -> seq<Byte>

  const U32: nat := 0x1_0000_0000
  const I64: nat := 0x8000_0000_0000_0000

  ghost predicate LongEnough(mac: Mac) {
    forall t: nat :: |mac(t)| >= 20
  }

  /** The big-endian number written by some bytes. */
  function BigEndian(s: seq<Byte>): nat {
    if s == [] then 0 else BigEndian(s[..|s| - 1]) * 256 + s[|s| - 1]
  }

  /** The low four bits of the last byte say where the four bytes of the code begin. */
  function Offset(mac: seq<Byte>): (o: nat)
    requires |mac| >= 20
    ensures o + 3 < |mac|
  {
    mac[|mac| - 1] % 16
  }

  function At(mac: seq<Byte>, i: nat): nat
    requires i < |mac|
  {
    mac[i]
  }

  /** Mask the sign bit, shift and join. */
  function Truncate(mac: seq<Byte>): nat
    requires |mac| >= 20
  {
    var o := Offset(mac);
    (At(mac, o) % 128) * 0x100_0000 + At(mac, o + 1) * 0x1_0000 + At(mac, o + 2) * 0x100 + At(mac, o + 3)
  }

  lemma BigEndianSnoc(mac: seq<Byte>, from: nat, to: nat)
    requires from <= to < |mac|
    ensures BigEndian(mac[from..to + 1]) == BigEndian(mac[from..to]) * 256 + At(mac, to)
  {
    assert mac[from..to + 1][..to - from] == mac[from..to];
  }

  lemma FourBytes(mac: seq<Byte>, o: nat)
    requires o + 3 < |mac|
    ensures BigEndian(mac[o..o + 4])
            == ((At(mac, o) * 256 + At(mac, o + 1)) * 256 + At(mac, o + 2)) * 256 + At(mac, o + 3)
  {
    hide At;
    BigEndianSnoc(mac, o, o);
    BigEndianSnoc(mac, o, o + 1);
    BigEndianSnoc(mac, o, o + 2);
    BigEndianSnoc(mac, o, o + 3);
    assert mac[o..o] == [];
  }

  /** Dropping the top bit of the first of four bytes is reducing their number modulo 2^31. */
  lemma TopBitDropped(a: nat, rest: nat)
    requires rest < 0x100_0000
    ensures (a * 0x100_0000 + rest) % 0x8000_0000 == (a % 128) * 0x100_0000 + rest
  {
    assert a == 128 * (a / 128) + a % 128;
  }

  /** Truncation is the low 31 bits of the four bytes read as one big-endian number. */
  lemma TruncateIsLow31Bits(mac: seq<Byte>)
    requires |mac| >= 20
    ensures var o := mac[|mac| - 1] % 16; Truncate(mac) == BigEndian(mac[o..o + 4]) % 0x8000_0000
    ensures Truncate(mac) < 0x8000_0000
  {
    var o := Offset(mac);
    FourBytes(mac, o);
    hide BigEndian;
    TopBitDropped(At(mac, o), At(mac, o + 1) * 0x1_0000 + At(mac, o + 2) * 0x100 + At(mac, o + 3));
  }

  /** `10u32.pow(digits)`; for ten digits it wraps in a build without overflow checks. */
  function Modulus(digits: nat): nat {
    Pow10(digits) % U32
  }

  lemma ModulusFits(digits: nat)
    requires 6 <= digits <= 10
    ensures 0 < Modulus(digits) <= Pow10(digits) && Modulus(digits) < U32
    ensures Modulus(digits) == Pow10(digits) <==> digits <= 9
  {
    assert Pow10(6) == 1_000_000;
    assert Pow10(8) == 100_000_000;
    assert Pow10(10) == 10_000_000_000;
  }

  /** Zero-padded printing is injective below 10^width. */
  lemma PaddedInjective(a: nat, b: nat, width: nat)
    requires a < Pow10(width) && b < Pow10(width) && Padded(a, width) == Padded(b, width)
    ensures a == b
  {
    PaddedReadsBack(a, width);
    PaddedReadsBack(b, width);
  }

  datatype Config = Config(digits: nat, period: nat, window: nat)

  datatype OtpError = BadDigits(digits: nat)

  /** The code for a time step. */
  function CodeAt(c: Config, mac: Mac, step: nat): string
    requires |mac(step)| >= 20 && 6 <= c.digits <= 10
  {
    ModulusFits(c.digits);
    Padded(Truncate(mac(step)) % Modulus(c.digits), c.digits)
  }

  function Clamp(x: int): nat {
    if x < 0 then 0 else x
  }

  /** Two's-complement truncation to 64 bits. */
  function WrapI64(x: int): int {
    var m := x % (2 * I64);
    if m < I64 then m else m - 2 * I64
  }

  /** The step `delta` away from the current one in signed 64-bit arithmetic, clamped at zero. */
  function StepAt(step: nat, delta: int): nat {
    Clamp(WrapI64(WrapI64(step) + delta))
  }

  /** As long as nothing overflows, the arithmetic is the plain one. */
  lemma StepAtIs(step: nat, delta: int)
    requires step < I64 && -(I64 as int) <= step + delta < I64
    ensures StepAt(step, delta) == Clamp(step + delta)
  {
  }

  /** The step `delta` away from the current one prints the candidate. */
  predicate PrintsAt(c: Config, mac: Mac, candidate: string, step: nat, delta: int)
    requires 6 <= c.digits <= 10 && |mac(StepAt(step, delta))| >= 20
  {
    candidate == CodeAt(c, mac, StepAt(step, delta))
  }

  /** Some step of the window prints the candidate. */
  ghost predicate InWindow(c: Config, mac: Mac, candidate: string, now: nat)
    requires LongEnough(mac) && 6 <= c.digits <= 10 && c.period > 0
  {
    exists delta: int :: -(c.window as int) <= delta <= c.window && PrintsAt(c, mac, candidate, now / c.period, delta)
  }

  /**
   Verification accepts a candidate exactly when some step of the window prints it. The clock counts
   seconds in 64 bits.
   */
  method VerifyTotp(c: Config, mac: Mac, candidate: string, now: nat) returns (r: Result<bool, OtpError>)
    requires LongEnough(mac) && c.period > 0 && now < 2 * I64 && c.window < U32
    ensures r.Err? <==> !(6 <= c.digits <= 10)
    ensures r.Err? ==> r.error == BadDigits(c.digits)
    ensures r.Ok? ==> (r.value <==> InWindow(c, mac, candidate, now))
  {
    if !(6 <= c.digits <= 10) {
      return Err(BadDigits(c.digits));
    }
    var accepted := ScanWindow(c, mac, candidate, now / c.period);
    r := Ok(accepted);
  }

  /** The loop over the window; every step is compared, accepted or not. */
  method ScanWindow(c: Config, mac: Mac, candidate: string, step: nat) returns (accepted: bool)
    requires LongEnough(mac) && 6 <= c.digits <= 10
    ensures accepted <==>
              exists delta: int :: -(c.window as int) <= delta <= c.window && PrintsAt(c, mac, candidate, step, delta)
  {
    hide CodeAt, StepAt;
    accepted := false;
    var delta := -(c.window as int);
    while delta <= c.window
      invariant -(c.window as int) <= delta <= c.window + 1
      invariant accepted <==>
        exists e: int :: -(c.window as int) <= e < delta && PrintsAt(c, mac, candidate, step, e)
    {
      var expected := CodeAt(c, mac, StepAt(step, delta));
      if expected == candidate {
        assert PrintsAt(c, mac, candidate, step, delta);
        accepted := true;
      }
      delta := delta + 1;
    }
  }

  /** A code has the configured number of digits and spells the truncated value modulo the code space. */
  lemma CodeSpells(c: Config, mac: Mac, step: nat)
    requires |mac(step)| >= 20 && 6 <= c.digits <= 10
    ensures |CodeAt(c, mac, step)| == c.digits
    ensures Modulus(c.digits) > 0 && ReadNat(CodeAt(c, mac, step)) == Some(Truncate(mac(step)) % Modulus(c.digits))
  {
    ModulusFits(c.digits);
    PaddedReadsBack(Truncate(mac(step)) % Modulus(c.digits), c.digits);
  }

  /** The MAC of the example in section 5.4 of RFC 4226. */
  const EXAMPLE: seq<Byte> :=
    [0x1f, 0x86, 0x98, 0x69, 0x0e, 0x02, 0xca, 0x16, 0x61, 0x85,
     0x50, 0xef, 0x7f, 0x19, 0xda, 0x8e, 0x94, 0x5b, 0x55, 0x5a]

  lemma ExampleTruncates()
    ensures |EXAMPLE| == 20 && Truncate(EXAMPLE) == 0x50ef7f19
  {
  }

  /** The example prints as the standard says. */
  lemma ExampleCode(mac: Mac, step: nat)
    requires mac(step) == EXAMPLE
    ensures CodeAt(Config(6, 30, 1), mac, step) == "872921"
  {
    ExampleTruncates();
    SixDigits();
    hide Padded, Pow10, Modulus, Truncate;
    assert 0x50ef7f19 % 1_000_000 == 872921;
  }

  lemma SixDigits()
    ensures Modulus(6) == 1_000_000 && Padded(872921, 6) == "872921"
  {
    assert Pow10(6) == 1_000_000;
    assert Padded(87, 2) == "87";
    assert Padded(8729, 4) == Padded(87, 2) + "29";
    assert Padded(872921, 6) == Padded(8729, 4) + "21";
  }

  /** The code of one step is printed at its distance from another. */
  lemma PrintedAtDistance(c: Config, mac: Mac, issued: nat, step: nat)
    requires LongEnough(mac) && 6 <= c.digits <= 10 && issued < I64 && step < I64
    ensures PrintsAt(c, mac, CodeAt(c, mac, issued), step, issued - step)
  {
    hide CodeAt;
    StepAtIs(step, issued - step);
  }

  /** A code generated for a moment is accepted as long as the verifier's clock is within the window. */
  lemma GeneratedCodesVerify(c: Config, mac: Mac, issuedAt: nat, now: nat)
    requires LongEnough(mac) && 6 <= c.digits <= 10 && c.period > 0
    requires issuedAt / c.period < I64 && now / c.period < I64
    requires -(c.window as int) <= issuedAt / c.period - now / c.period <= c.window
    ensures InWindow(c, mac, CodeAt(c, mac, issuedAt / c.period), now)
  {
    hide CodeAt, StepAt, PrintsAt;
    PrintedAtDistance(c, mac, issuedAt / c.period, now / c.period);
  }

  /**
   Two steps print the same code exactly when their truncated values agree modulo the code space, which is
   10^digits up to nine digits and what is left of it in 32 bits for ten.
   */
  lemma CodesAgreeIff(c: Config, mac: Mac, s: nat, t: nat)
    requires LongEnough(mac) && 6 <= c.digits <= 10
    ensures Modulus(c.digits) > 0 && (Modulus(c.digits) == Pow10(c.digits) <==> c.digits <= 9)
    ensures CodeAt(c, mac, s) == CodeAt(c, mac, t)
            <==> Truncate(mac(s)) % Modulus(c.digits) == Truncate(mac(t)) % Modulus(c.digits)
  {
    ModulusFits(c.digits);
    var a, b := Truncate(mac(s)) % Modulus(c.digits), Truncate(mac(t)) % Modulus(c.digits);
    if Padded(a, c.digits) == Padded(b, c.digits) {
      PaddedInjective(a, b, c.digits);
    }
  }
}
