/** HOTP truncation (section 5.3 of RFC 4226), fixed-width codes, and TOTP verification over a window of
    three time steps (section 4 of RFC 6238). */
module Totp {
  import opened Arithmetic
  import opened Results
  import opened Decimals

  type Byte = b: int | 0 <= b < 256

  const MIN_SEED_BYTES := 20
  const U64_MAX := 0xFFFF_FFFF_FFFF_FFFF

  datatype Algorithm = Sha1 | Sha256 | Sha512

  datatype Profile = Profile(algorithm: Algorithm, digits: nat, periodSeconds: nat)

  datatype TotpError = InvalidDigits | InvalidPeriod | InvalidCode | InvalidSeedLength

  /** HMAC under the seed, for one of the three hash functions. */
  type Hmac = (Algorithm, seq<Byte>, seq<Byte>) -> seq<Byte>

  function DigestLength(a: Algorithm): nat {
    match a case Sha1 => 20 case Sha256 => 32 case Sha512 => 64
  }

  ghost predicate DigestLengths(hmac: Hmac) {
    forall a, key, data :: |hmac(a, key, data)| == DigestLength(a)
  }

  // ----- one code -----

  function Pow10(n: nat): (p: nat)
    ensures p > 0
  {
    if n == 0 then 1 else 10 * Pow10(n - 1)
  }

  /** The eight big-endian bytes of a 64-bit counter. */
  function CounterBytes(counter: nat): (bytes: seq<Byte>)
    ensures |bytes| == 8
  {
    BigEndian(counter, 8)
  }

  function BigEndian(v: nat, n: nat): (bytes: seq<Byte>)
    ensures |bytes| == n
  {
    if n == 0 then [] else BigEndian(v / 256, n - 1) + [v % 256]
  }

  /** The number that bytes denote, most significant first. */
  function Number(bytes: seq<Byte>): nat {
    if bytes == [] then 0 else 256 * Number(bytes[..|bytes| - 1]) + bytes[|bytes| - 1]
  }

  /** Big-endian bytes read back as the number, modulo what fits. */
  lemma {:induction false} BigEndianFaithful(v: nat, n: nat)
    ensures Number(BigEndian(v, n)) == v % Pow256(n)
  {
    if n > 0 {
      BigEndianFaithful(v / 256, n - 1);
      assert BigEndian(v, n)[..n - 1] == BigEndian(v / 256, n - 1);
      ModSplit(v, Pow256(n - 1));
    }
  }

  function Pow256(n: nat): (p: nat)
    ensures p > 0
  {
    if n == 0 then 1 else 256 * Pow256(n - 1)
  }

  lemma ModSplit(v: nat, p: nat)
    requires p > 0
    ensures v % (256 * p) == 256 * ((v / 256) % p) + v % 256
  {
    var q, r, h := v / 256, v % 256, (v / 256) / p;
    var low := q % p;
    assert q == p * h + low;
    assert v == 256 * (p * h + low) + r;
    assert v == (256 * p) * h + (256 * low + r) by { assert 256 * (p * h) == (256 * p) * h; }
    assert 256 * low + r < 256 * p;
    Quotient(v, 256 * p, h, 256 * low + r);
  }

  /** The dynamic truncation: the low nibble of the last byte picks four bytes; the top bit is dropped. */
  function Truncate(digest: seq<Byte>): (value: nat)
    requires |digest| >= 20
    ensures value < 0x8000_0000
  {
    var offset := digest[|digest| - 1] % 16;
    var b0: int, b1: int, b2: int, b3: int := digest[offset], digest[offset + 1], digest[offset + 2],
        digest[offset + 3];
    (b0 % 128) * 0x100_0000 + b1 * 0x1_0000 + b2 * 0x100 + b3
  }

  /** It is the last 31 bits of the four bytes at the offset, and those four bytes always exist. */
  lemma TruncateIsLast31Bits(digest: seq<Byte>)
    requires |digest| >= 20
    ensures var offset := digest[|digest| - 1] % 16;
            offset + 4 <= |digest| && Truncate(digest) == Number(digest[offset..offset + 4]) % 0x8000_0000
  {
    var offset := digest[|digest| - 1] % 16;
    var four := digest[offset..offset + 4];
    assert four[..3][..2][..1][..0] == [] && four[..3][..2][..1] == [four[0]];
    assert four[..3][..2] == [four[0], four[1]] && four[..3] == [four[0], four[1], four[2]];
    var b0: int, b1: int, b2: int, b3: int := four[0], four[1], four[2], four[3];
    assert Number(four[..3][..2][..1]) == b0;
    assert Number(four[..3][..2]) == 256 * b0 + b1;
    assert Number(four[..3]) == 256 * (256 * b0 + b1) + b2;
    assert Number(four) == 256 * (256 * (256 * b0 + b1) + b2) + b3;
  }

  function Hotp(hmac: Hmac, seed: seq<Byte>, counter: nat, profile: Profile): (value: nat)
    requires DigestLengths(hmac)
    ensures value < Pow10(profile.digits)
  {
    Truncate(hmac(profile.algorithm, seed, CounterBytes(counter))) % Pow10(profile.digits)
  }

  function Repeat(c: char, n: nat): (s: string)
    ensures |s| == n && forall i :: 0 <= i < n ==> s[i] == c
  {
    seq(n, i => c)
  }

  /** Decimal, padded with zeros on the left to the given width. */
  function FormatCode(value: nat, digits: nat): string {
    var d := Decimal(value);
    if |d| >= digits then d else Repeat('0', digits - |d|) + d
  }

  lemma {:induction false} DecimalLength(v: nat, digits: nat)
    requires digits > 0 && v < Pow10(digits)
    ensures |Decimal(v)| <= digits
  {
    if v >= 10 {
      DecimalLength(v / 10, digits - 1);
    }
  }

  lemma {:induction false} ValueOfPadded(n: nat, s: string)
    requires AllDigits(s)
    ensures AllDigits(Repeat('0', n) + s) && Value(Repeat('0', n) + s) == Value(s)
    decreases |s|
  {
    if s == "" {
      assert Repeat('0', n) + s == Repeat('0', n);
      ValueOfZeros(n);
    } else {
      ValueOfPadded(n, s[..|s| - 1]);
      assert (Repeat('0', n) + s)[..n + |s| - 1] == Repeat('0', n) + s[..|s| - 1];
    }
  }

  lemma {:induction false} ValueOfZeros(n: nat)
    ensures AllDigits(Repeat('0', n)) && Value(Repeat('0', n)) == 0
  {
    if n > 0 {
      ValueOfZeros(n - 1);
      assert Repeat('0', n)[..n - 1] == Repeat('0', n - 1);
    }
  }

  predicate ValidCode(code: string, digits: nat) {
    |code| == digits && AllDigits(code)
  }

  /** A value below 10^digits prints as exactly that many digits, and they read back as the value. */
  lemma FormatCodeFaithful(value: nat, digits: nat)
    requires digits > 0 && value < Pow10(digits)
    ensures ValidCode(FormatCode(value, digits), digits)
    ensures Value(FormatCode(value, digits)) == value
  {
    DecimalLength(value, digits);
    ValueOfDecimal(value);
    ValueOfPadded(digits - |Decimal(value)|, Decimal(value));
    assert Repeat('0', 0) + Decimal(value) == Decimal(value);
  }

  lemma FormatCodeInjective(a: nat, b: nat, digits: nat)
    requires digits > 0 && a < Pow10(digits) && b < Pow10(digits)
    requires FormatCode(a, digits) == FormatCode(b, digits)
    ensures a == b
  {
    FormatCodeFaithful(a, digits);
    FormatCodeFaithful(b, digits);
  }

  function TimeStep(unixSeconds: nat, periodSeconds: nat): nat
    requires periodSeconds > 0
  {
    unixSeconds / periodSeconds
  }

  predicate ValidProfile(p: Profile) {
    p.digits in {6, 8} && p.periodSeconds > 0
  }

  function CodeAt(hmac: Hmac, seed: seq<Byte>, profile: Profile, step: nat): string
    requires DigestLengths(hmac)
  {
    FormatCode(Hotp(hmac, seed, step, profile), profile.digits)
  }

  /** The code of a step in the terms of section 5 of RFC 4226: eight bytes that denote the step, the last 31 bits of
      the four bytes at the offset the digest names, and that number's last digits. */
  lemma CodeIsHotp(hmac: Hmac, seed: seq<Byte>, profile: Profile, step: nat)
    requires DigestLengths(hmac) && ValidProfile(profile) && step <= U64_MAX
    ensures exists counter: seq<Byte> :: |counter| == 8 && Number(counter) == step
              && var digest := hmac(profile.algorithm, seed, counter);
                 var offset := digest[|digest| - 1] % 16;
                 && ValidCode(CodeAt(hmac, seed, profile, step), profile.digits)
                 && Value(CodeAt(hmac, seed, profile, step))
                    == (Number(digest[offset..offset + 4]) % 0x8000_0000) % Pow10(profile.digits)
  {
    var counter := CounterBytes(step);
    BigEndianFaithful(step, 8);
    assert Pow256(8) == 0x1_0000_0000_0000_0000 by { assert Pow256(4) == 0x1_0000_0000; }
    assert Number(counter) == step;
    TruncateIsLast31Bits(hmac(profile.algorithm, seed, counter));
    FormatCodeFaithful(Hotp(hmac, seed, step, profile), profile.digits);
  }

  /** The code of each time step, for one factor. */
  function Codes(hmac: Hmac, seed: seq<Byte>, profile: Profile): nat -> string
    requires DigestLengths(hmac)
  {
    (step: nat) => CodeAt(hmac, seed, profile, step)
  }

  function Generate(hmac: Hmac, seed: seq<Byte>, unixSeconds: nat, profile: Profile): Result<string, TotpError>
    requires DigestLengths(hmac)
  {
    if profile.digits !in {6, 8} then Err(InvalidDigits)
    else if profile.periodSeconds == 0 then Err(InvalidPeriod)
    else if |seed| < MIN_SEED_BYTES then Err(InvalidSeedLength)
    else Ok(CodeAt(hmac, seed, profile, TimeStep(unixSeconds, profile.periodSeconds)))
  }

  // ----- verification -----

  /** A step that may be accepted: in the window, a 64-bit number, not burnt, with the right code. */
  ghost predicate Acceptable(codeAt: nat -> string, current: nat, last: Option<nat>, code: string, step: nat) {
    && current - 1 <= step <= current + 1 && step <= U64_MAX
    && (last.Some? ==> step > last.value)
    && codeAt(step) == code
  }

  /** The verdict on a code: the least acceptable step, if there is one. */
  ghost predicate IsVerdict(codeAt: nat -> string, current: nat, last: Option<nat>, code: string, r: Option<nat>) {
    match r
    case None => forall s: nat :: !Acceptable(codeAt, current, last, code, s)
    case Some(s) =>
      Acceptable(codeAt, current, last, code, s)
      && forall t: nat :: t < s ==> !Acceptable(codeAt, current, last, code, t)
  }

  function Candidate(codeAt: nat -> string, last: Option<nat>, code: string, step: Option<nat>): bool {
    step.Some? && (last.Some? ==> step.value > last.value) && codeAt(step.value) == code
  }

  /** The same verdict as a computation on the three candidates. */
  function AcceptStep(codeAt: nat -> string, current: nat, last: Option<nat>, code: string): (r: Option<nat>)
    requires current <= U64_MAX
    ensures IsVerdict(codeAt, current, last, code, r)
  {
    var below := if current > 0 then Some(current - 1) else None;
    var above := if current < U64_MAX then Some(current + 1) else None;
    if Candidate(codeAt, last, code, below) then below
    else if Candidate(codeAt, last, code, Some(current)) then Some(current)
    else if Candidate(codeAt, last, code, above) then above
    else None
  }

  lemma VerdictUnique(codeAt: nat -> string, current: nat, last: Option<nat>, code: string, r: Option<nat>,
                      r': Option<nat>)
    requires IsVerdict(codeAt, current, last, code, r) && IsVerdict(codeAt, current, last, code, r')
    ensures r == r'
  {
    if r.Some? && r'.Some? {
      assert !(r.value < r'.value) && !(r'.value < r.value);
    }
  }

  method Verify(hmac: Hmac, seed: seq<Byte>, unixSeconds: nat, code: string, profile: Profile, last: Option<nat>)
    returns (r: Result<Option<nat>, TotpError>)
    requires DigestLengths(hmac) && unixSeconds <= U64_MAX
    ensures r.Err? <==> !ValidProfile(profile) || |seed| < MIN_SEED_BYTES || !ValidCode(code, profile.digits)
    ensures r.Err? ==> r.error == if profile.digits !in {6, 8} then InvalidDigits
                                  else if profile.periodSeconds == 0 then InvalidPeriod
                                  else if |seed| < MIN_SEED_BYTES then InvalidSeedLength else InvalidCode
    ensures r.Ok? ==> IsVerdict(Codes(hmac, seed, profile), TimeStep(unixSeconds, profile.periodSeconds), last,
                                code, r.value)
  {
    if profile.digits !in {6, 8} {
      return Err(InvalidDigits);
    }
    if profile.periodSeconds == 0 {
      return Err(InvalidPeriod);
    }
    if |seed| < MIN_SEED_BYTES {
      return Err(InvalidSeedLength);
    }
    if !ValidCode(code, profile.digits) {
      return Err(InvalidCode);
    }
    var current := TimeStep(unixSeconds, profile.periodSeconds);
    assert current <= U64_MAX by { QuotientBelow(unixSeconds, profile.periodSeconds); }
    var candidates: seq<Option<nat>> :=
      [if current > 0 then Some(current - 1) else None, Some(current), if current < U64_MAX then Some(current + 1)
          else None];
    ghost var codeAt := Codes(hmac, seed, profile);
    for i := 0 to 3
      invariant forall k :: 0 <= k < i ==> !Candidate(codeAt, last, code, candidates[k])
    {
      if candidates[i].Some? {
        var candidate := candidates[i].value;
        if !(last.Some? && candidate <= last.value) {
          var expected := FormatCode(Hotp(hmac, seed, candidate, profile), profile.digits);
          if expected == code {
            assert Candidate(codeAt, last, code, candidates[i]);
            VerdictFromCandidates(codeAt, current, last, code, candidates, i);
            return Ok(Some(candidate));
          }
        }
      }
    }
    VerdictFromCandidates(codeAt, current, last, code, candidates, 3);
    return Ok(None);
  }

  lemma QuotientBelow(n: nat, d: nat)
    requires d > 0
    ensures n / d <= n
  {
    var q := n / d;
    assert n == d * q + n % d;
    if n < q { ProductGap(d, 0, q); ProductGap(q, 0, d); }
  }

  lemma VerdictFromCandidates(codeAt: nat -> string, current: nat, last: Option<nat>, code: string,
                              candidates: seq<Option<nat>>, n: nat)
    requires current <= U64_MAX && |candidates| == 3 && n <= 3
    requires candidates[0] == (if current > 0 then Some(current - 1) else None) && candidates[1] == Some(current)
    requires candidates[2] == if current < U64_MAX then Some(current + 1) else None
    requires forall k :: 0 <= k < n ==> !Candidate(codeAt, last, code, candidates[k])
    requires n < 3 ==> Candidate(codeAt, last, code, candidates[n])
    ensures IsVerdict(codeAt, current, last, code, if n < 3 then candidates[n] else None)
  {
    assert !Candidate(codeAt, last, code, candidates[0]) || n == 0;
    assert !Candidate(codeAt, last, code, candidates[1]) || n <= 1;
    assert !Candidate(codeAt, last, code, candidates[2]) || n <= 2;
  }

  /** A generated code at most one step away, at a step not yet burnt, is accepted. */
  lemma GeneratedCodeIsAccepted(hmac: Hmac, seed: seq<Byte>, madeAt: nat, checkedAt: nat, profile: Profile,
                                last: Option<nat>, verdict: Option<nat>)
    requires DigestLengths(hmac) && madeAt <= U64_MAX && checkedAt <= U64_MAX
    requires ValidProfile(profile) && |seed| >= MIN_SEED_BYTES
    requires var made, checked := TimeStep(madeAt, profile.periodSeconds), TimeStep(checkedAt, profile.periodSeconds);
             checked - 1 <= made <= checked + 1 && (last.Some? ==> made > last.value)
    requires IsVerdict(Codes(hmac, seed, profile), TimeStep(checkedAt, profile.periodSeconds), last,
                       Generate(hmac, seed, madeAt, profile).value, verdict)
    ensures ValidCode(Generate(hmac, seed, madeAt, profile).value, profile.digits)
    ensures verdict.Some? && verdict.value <= TimeStep(madeAt, profile.periodSeconds)
  {
    var made, code := TimeStep(madeAt, profile.periodSeconds), Generate(hmac, seed, madeAt, profile).value;
    FormatCodeFaithful(Hotp(hmac, seed, made, profile), profile.digits);
    QuotientBelow(madeAt, profile.periodSeconds);
    var codeAt := Codes(hmac, seed, profile);
    assert Acceptable(codeAt, TimeStep(checkedAt, profile.periodSeconds), last, code, made);
  }
}
