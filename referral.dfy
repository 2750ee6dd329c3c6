/** Referral-code generation (src/utils/referral.ts): up to ten random
    8-character hex codes, each checked against the user directory; the
    first one reported free is kept. The random bytes and the directory
    lookup are parameters. */
module Referral {
  import opened Wrappers

  type Byte = x: int | 0 <= x < 256

  /** The output of `crypto.randomBytes(4)`. */
  type Bytes4 = s: seq<Byte> | |s| == 4 witness [0, 0, 0, 0]

  const HexDigits: string := "0123456789abcdef"

  predicate IsHexDigit(c: char) {
    ('0' <= c <= '9') || ('a' <= c <= 'f')
  }

  /** `buffer.toString('hex')`: two lowercase hex digits per byte, high
      nibble first. */
  function Hex(bytes: seq<Byte>): (r: string)
    ensures |r| == 2 * |bytes|
    ensures forall k :: 0 <= k < |r| ==> IsHexDigit(r[k])
  {
    if bytes == [] then []
    else [HexDigits[bytes[0] / 16], HexDigits[bytes[0] % 16]] + Hex(bytes[1..])
  }

  function HexValue(c: char): (n: nat)
    requires IsHexDigit(c)
    ensures n < 16 && HexDigits[n] == c
  {
    if '0' <= c <= '9' then c as int - '0' as int else c as int - 'a' as int + 10
  }

  /** Reading a hex string back into bytes. */
  function UnHex(s: string): seq<Byte>
    requires |s| % 2 == 0 && forall k :: 0 <= k < |s| ==> IsHexDigit(s[k])
  {
    if s == [] then [] else [HexValue(s[0]) * 16 + HexValue(s[1])] + UnHex(s[2..])
  }

  lemma HexDigitsValue(n: nat)
    requires n < 16
    ensures HexValue(HexDigits[n]) == n
  {
  }

  /** Hex encoding loses nothing: decoding gives back the bytes. */
  lemma {:induction false} HexRoundTrip(bytes: seq<Byte>)
    ensures UnHex(Hex(bytes)) == bytes
  {
    if bytes != [] {
      var h := Hex(bytes);
      HexDigitsValue(bytes[0] / 16);
      HexDigitsValue(bytes[0] % 16);
      assert h[2..] == Hex(bytes[1..]);
      HexRoundTrip(bytes[1..]);
    }
  }

  /** What `apiClient.getUserByReferralCode` gives back. */
  datatype LookupResult = Found | NotFound | LookupError

  /** `exists = !!user`, with a failed lookup counted as free. */
  predicate IsFree(l: LookupResult) {
    !l.Found?
  }

  const MaxAttempts: nat := 10

  /** The code tried at attempt `k` (counting from 0): eight lowercase hex
      digits. */
  function Candidate(random: nat -> Bytes4, k: nat): (code: string)
    ensures |code| == 8 && forall i :: 0 <= i < 8 ==> IsHexDigit(code[i])
  {
    Hex(random(k))
  }

  /** The first attempt, from `from` up to `bound`, whose code the lookup
      reports free. */
  function FirstFree(random: nat -> Bytes4, lookup: string -> LookupResult, from: nat, bound: nat): (r: Option<nat>)
    decreases bound - from
    ensures r.Some? ==> from <= r.value < bound && IsFree(lookup(Candidate(random, r.value)))
    ensures r.Some? ==> forall j :: from <= j < r.value ==> !IsFree(lookup(Candidate(random, j)))
    ensures r.None? ==> forall j :: from <= j < bound ==> !IsFree(lookup(Candidate(random, j)))
  {
    if from >= bound then None
    else if IsFree(lookup(Candidate(random, from))) then Some(from)
    else FirstFree(random, lookup, from + 1, bound)
  }

  const Exhausted: string := "Failed to generate unique referral code after multiple attempts"

  /** The `while (exists && attempts < maxAttempts)` loop of
      `generateReferralCode`: it stops at the first free code or after ten
      lookups; `attempts` is the number of lookups made. */
  method TryCodes(random: nat -> Bytes4, lookup: string -> LookupResult)
    returns (code: string, taken: bool, attempts: nat)
    ensures var f := FirstFree(random, lookup, 0, MaxAttempts);
      (taken <==> f.None?) &&
      attempts == (if f.Some? then f.value + 1 else MaxAttempts) &&
      (f.Some? ==> code == Candidate(random, f.value))
  {
    code := "";
    taken := true;
    attempts := 0;
    while taken && attempts < MaxAttempts
      invariant attempts <= MaxAttempts
      invariant taken ==> FirstFree(random, lookup, 0, attempts).None?
      invariant !taken ==>
        attempts >= 1 && FirstFree(random, lookup, 0, attempts) == Some(attempts - 1) &&
        code == Candidate(random, attempts - 1)
      decreases MaxAttempts - attempts
    {
      code := Hex(random(attempts));
      taken := !IsFree(lookup(code));
      FirstFreeExtend(random, lookup, attempts);
      attempts := attempts + 1;
    }
    if !taken {
      FirstFreeStable(random, lookup, attempts, MaxAttempts);
    }
  }

  /** `generateReferralCode` as written: after the loop, the test
      `attempts >= maxAttempts` also rejects a free code found at the tenth
      attempt. `lookups` counts the directory lookups made. */
  method GenerateReferralCode(random: nat -> Bytes4, lookup: string -> LookupResult)
    returns (r: Result<string>, lookups: nat)
    ensures var f := FirstFree(random, lookup, 0, MaxAttempts);
      lookups == (if f.Some? then f.value + 1 else MaxAttempts)
    ensures var f := FirstFree(random, lookup, 0, MaxAttempts);
      r.Success? <==> f.Some? && f.value < MaxAttempts - 1
    ensures r.Success? ==> r.value == Candidate(random, FirstFree(random, lookup, 0, MaxAttempts).value)
    ensures r.Failure? ==> r.error == Exhausted
  {
    var code, _, attempts := TryCodes(random, lookup);
    lookups := attempts;
    if attempts >= MaxAttempts {
      return Failure(Exhausted), lookups;
    }
    return Success(code), lookups;
  }

  /** The generator with the final test on `exists` instead of on the
      attempt count: it fails only when all ten codes are taken. */
  method GenerateReferralCodeChecked(random: nat -> Bytes4, lookup: string -> LookupResult)
    returns (r: Result<string>, lookups: nat)
    ensures var f := FirstFree(random, lookup, 0, MaxAttempts);
      lookups == (if f.Some? then f.value + 1 else MaxAttempts)
    ensures r.Success? <==> FirstFree(random, lookup, 0, MaxAttempts).Some?
    ensures r.Success? ==> r.value == Candidate(random, FirstFree(random, lookup, 0, MaxAttempts).value)
    ensures r.Failure? ==> r.error == Exhausted
  {
    var code, taken, attempts := TryCodes(random, lookup);
    lookups := attempts;
    if taken {
      return Failure(Exhausted), lookups;
    }
    return Success(code), lookups;
  }

  /** Widening the bound by one attempt: the first free attempt stays, or
      the new attempt becomes it. */
  lemma {:induction false} FirstFreeExtend(random: nat -> Bytes4, lookup: string -> LookupResult, n: nat)
    ensures var f, g := FirstFree(random, lookup, 0, n), FirstFree(random, lookup, 0, n + 1);
      (f.Some? ==> g == f) &&
      (f.None? ==> (g.Some? <==> IsFree(lookup(Candidate(random, n)))) && (g.Some? ==> g.value == n))
  {
    var f, g := FirstFree(random, lookup, 0, n), FirstFree(random, lookup, 0, n + 1);
    if f.Some? && g.Some? {
      assert !(g.value < f.value) && !(f.value < g.value);
    }
  }

  /** Once a free attempt is found below `n`, larger bounds find the same. */
  lemma {:induction false} FirstFreeStable(random: nat -> Bytes4, lookup: string -> LookupResult, n: nat, m: nat)
    requires n <= m
    requires FirstFree(random, lookup, 0, n).Some?
    ensures FirstFree(random, lookup, 0, m) == FirstFree(random, lookup, 0, n)
    decreases m - n
  {
    if n < m {
      FirstFreeExtend(random, lookup, n);
      FirstFreeStable(random, lookup, n + 1, m);
    }
  }

  /** The bytes `0, 0, 0, k`: the attempts produce codes ending in `k`. */
  function CountingBytes(k: nat): Bytes4 {
    [0, 0, 0, k % 256]
  }

  /** A directory in which only the code of attempt 9 is free. */
  function OnlyTenthFree(code: string): LookupResult {
    if code == Hex([0, 0, 0, 9]) then NotFound else Found
  }

  /** With only the tenth code free, the first free attempt is attempt 9:
      `GenerateReferralCode` then fails although a free code was found,
      and `GenerateReferralCodeChecked` returns it. */
  lemma TenthFreeCodeIsRejected()
    ensures FirstFree(CountingBytes, OnlyTenthFree, 0, MaxAttempts) == Some(MaxAttempts - 1)
  {
    forall k: nat | k < 9 ensures !IsFree(OnlyTenthFree(Candidate(CountingBytes, k))) {
      EarlierCodeTaken(k);
    }
    assert CountingBytes(9) == [0, 0, 0, 9];
    assert IsFree(OnlyTenthFree(Candidate(CountingBytes, 9)));
  }

  lemma EarlierCodeTaken(k: nat)
    requires k < 9
    ensures OnlyTenthFree(Hex(CountingBytes(k))) == Found
  {
    var a: seq<Byte> := CountingBytes(k);
    assert a[3] != 9;
    HexRoundTrip(a);
    HexRoundTrip([0, 0, 0, 9]);
  }
}
