/**
 Replacement-fee arithmetic of the withdraw dispatcher
 (services/wallet-core/internal/dispatcher/withdraw_accelerate.go).
 */
module FeeBump {
  import opened Arithmetic
  import opened Wrappers
  import opened Text

  const DEFAULT_BPS: int := 2000

  /** int64(x) for an int computed in 64 bits. */
  function Wrap64(x: int): int {
    (x + 0x8000_0000_0000_0000) % 0x1_0000_0000_0000_0000 - 0x8000_0000_0000_0000
  }

  /** A basis-point value whose multiplier does not overflow. */
  predicate SaneBps(bps: int) {
    0 < bps < 0x8000_0000_0000_0000 - 10_000
  }

  function Bumped(n: nat, bps: int): nat {
    if n == 0 then 1
    else
      var out := n * Wrap64(10_000 + bps) / 10_000;
      if out <= n then n + 1 else out
  }

  datatype FeeError = NotAnInteger | Negative | BadPriorityFee(cause: FeeError) | BadMaxFee(cause: FeeError)

  function BumpDecimal(v: string, bps: int): Result<string, FeeError> {
    match ParseInteger(v)
    case None => Failure(NotAnInteger)
    case Some(n) => if n < 0 then Failure(Negative) else Success(Decimal(Bumped(n, bps)))
  }

  /** -1, 0 or 1; texts that are not integers compare as equal. */
  function CompareDecimal(a: string, b: string): int {
    match (ParseInteger(a), ParseInteger(b))
    case (Some(x), Some(y)) => if x < y then -1 else if x == y then 0 else 1
    case _ => 0
  }

  /** The decoded transaction payload; `fields` is everything the bump leaves alone. */
  datatype Payload = Payload(nonceMode: string, maxPriorityFee: string, maxFee: string, fields: seq<string>)

  function BumpPayload(p: Payload, bps: int): Result<Payload, FeeError> {
    var rate := if bps <= 0 then DEFAULT_BPS else bps;
    match BumpDecimal(p.maxPriorityFee, rate)
    case Failure(e) => Failure(BadPriorityFee(e))
    case Success(priority) =>
      match BumpDecimal(p.maxFee, rate)
      case Failure(e) => Failure(BadMaxFee(e))
      case Success(maxFee) =>
        var capped := if CompareDecimal(maxFee, priority) < 0 then priority else maxFee;
        Success(p.(nonceMode := "fixed", maxPriorityFee := priority, maxFee := capped))
  }

  // ---------------------------------------------------------------- what the bump computes

  lemma BumpedIsMax(n: nat, bps: int)
    requires SaneBps(bps)
    ensures Bumped(n, bps) == Max(n + 1, n * (10_000 + bps) / 10_000)
  {
    assert Wrap64(10_000 + bps) == 10_000 + bps;
  }

  lemma QuotientGap(a: int, b: int)
    requires a + 10_000 <= b
    ensures a / 10_000 + 1 <= b / 10_000
  {
  }

  /** A larger fee stays strictly larger after the bump. */
  lemma BumpIsStrictlyMonotone(n: nat, m: nat, bps: int)
    requires SaneBps(bps) && n < m
    ensures n < Bumped(n, bps) < Bumped(m, bps)
  {
    BumpedIsMax(n, bps);
    BumpedIsMax(m, bps);
    ProductGap(10_000 + bps, m, n);
    QuotientGap(n * (10_000 + bps), m * (10_000 + bps));
  }

  /**
   For every pair of nonnegative fees the bump succeeds, both fees rise strictly, the
   priority fee never exceeds the maximum, nothing else but the nonce mode changes, and
   the clamp decides the maximum exactly when the input already had it below the
   priority fee.
   */
  lemma PayloadBump(p: Payload, bps: int, priority: nat, maxFee: nat)
    requires bps <= 0 || SaneBps(bps)
    requires ParseInteger(p.maxPriorityFee) == Some(priority) && ParseInteger(p.maxFee) == Some(maxFee)
    ensures var rate := if bps <= 0 then DEFAULT_BPS else bps; var r := BumpPayload(p, bps);
            && r.Success?
            && r.value == Payload("fixed", Decimal(Bumped(priority, rate)),
                                  Decimal(Bumped(if maxFee < priority then priority else maxFee, rate)), p.fields)
            && ParseInteger(r.value.maxPriorityFee) == Some(Bumped(priority, rate))
            && Bumped(priority, rate) > priority && Bumped(maxFee, rate) > maxFee
  {
    var rate := if bps <= 0 then DEFAULT_BPS else bps;
    BumpOfText(p.maxPriorityFee, priority, rate);
    BumpOfText(p.maxFee, maxFee, rate);
    BumpedIsMax(priority, rate);
    BumpedIsMax(maxFee, rate);
    CompareOfDecimals(Bumped(maxFee, rate), Bumped(priority, rate));
    ParseIntegerOfDecimal(Bumped(priority, rate));
    BumpKeepsOrder(maxFee, priority, rate);
  }

  lemma BumpOfText(v: string, n: nat, bps: int)
    requires ParseInteger(v) == Some(n)
    ensures BumpDecimal(v, bps) == Success(Decimal(Bumped(n, bps)))
  {
  }

  lemma CompareOfDecimals(x: nat, y: nat)
    ensures CompareDecimal(Decimal(x), Decimal(y)) < 0 <==> x < y
  {
    ParseIntegerOfDecimal(x);
    ParseIntegerOfDecimal(y);
  }

  lemma BumpKeepsOrder(x: nat, y: nat, bps: int)
    requires SaneBps(bps)
    ensures Bumped(x, bps) < Bumped(y, bps) <==> x < y
  {
    if x < y {
      BumpIsStrictlyMonotone(x, y, bps);
    } else if y < x {
      BumpIsStrictlyMonotone(y, x, bps);
    }
  }

  /** Without a configured rate fees rise by a fifth, rounded down, and at least by one. */
  lemma DefaultRate(p: Payload, bps: int, priority: nat, maxFee: nat)
    requires bps <= 0 && priority <= maxFee
    requires ParseInteger(p.maxPriorityFee) == Some(priority) && ParseInteger(p.maxFee) == Some(maxFee)
    ensures BumpPayload(p, bps) ==
            Success(Payload("fixed", Decimal(Max(priority + 1, priority * 12 / 10)),
                            Decimal(Max(maxFee + 1, maxFee * 12 / 10)), p.fields))
  {
    PayloadBump(p, bps, priority, maxFee);
    BumpedIsMax(priority, 2000);
    BumpedIsMax(maxFee, 2000);
    TwelveTenths(priority);
    TwelveTenths(maxFee);
  }

  lemma TwelveTenths(n: nat)
    ensures n * 12_000 / 10_000 == n * 12 / 10
  {
  }

  /** The bump refuses exactly the payloads with a fee that is not a nonnegative integer. */
  lemma PayloadBumpFails(p: Payload, bps: int)
    ensures BumpPayload(p, bps).Failure? <==>
            exists v: string ::
              (v == p.maxPriorityFee || v == p.maxFee) && (ParseInteger(v).None? || ParseInteger(v).value < 0)
  {
    if BumpPayload(p, bps).Failure? {
      var rate := if bps <= 0 then DEFAULT_BPS else bps;
      var v := if BumpDecimal(p.maxPriorityFee, rate).Failure? then p.maxPriorityFee else p.maxFee;
      assert ParseInteger(v).None? || ParseInteger(v).value < 0;
    }
  }

  // ---------------------------------------------------------------- the ten percent replacement rule

  /** Nodes accept a replacement whose fee is at least ten percent higher. */
  predicate RisesTenPercent(n: nat, bps: int) {
    10 * Bumped(n, bps) >= 11 * n
  }

  /** A rate meets the replacement rule for every fee exactly from 1819 basis points on; the default 2000 does. */
  lemma TenPercentRule(bps: int)
    requires SaneBps(bps)
    ensures (forall n: nat :: RisesTenPercent(n, bps)) <==> bps >= 1819
  {
    if bps >= 1819 {
      forall n: nat ensures RisesTenPercent(n, bps) {
        TenPercentFrom1819(n, bps);
      }
    } else {
      BumpedIsMax(11, bps);
      assert 11 * (10_000 + bps) / 10_000 <= 12;
      assert !RisesTenPercent(11, bps);
    }
  }

  lemma TenPercentFrom1819(n: nat, bps: int)
    requires SaneBps(bps) && bps >= 1819
    ensures RisesTenPercent(n, bps)
  {
    BumpedIsMax(n, bps);
    ScaledAtLeast(n, bps);
    RoundedTenPercent(n, n * (10_000 + bps));
  }

  lemma ScaledAtLeast(n: nat, bps: int)
    requires bps >= 1819
    ensures n * (10_000 + bps) >= n * 11_819
  {
    var k := bps - 1819;
    assert n * (10_000 + bps) == n * 11_819 + n * k;
    assert n * k >= 0;
  }

  /** Rounding down costs less than the margin once n > 12, and below that adding one or two is enough. */
  lemma RoundedTenPercent(n: nat, scaled: nat)
    requires scaled >= n * 11_819
    ensures 10 * Max(n + 1, scaled / 10_000) >= 11 * n
  {
    var q := scaled / 10_000;
    assert 10_000 * q > scaled - 10_000;
  }

  function Repeated(n: nat, bps: int, k: nat): nat {
    if k == 0 then n else Bumped(Repeated(n, bps, k - 1), bps)
  }

  function Pow(b: nat, k: nat): nat {
    if k == 0 then 1 else b * Pow(b, k - 1)
  }

  /** k accelerations add at least k, and from 1819 basis points on they compound to at least 1.1^k. */
  lemma {:induction false} RepeatedBumps(n: nat, bps: int, k: nat)
    requires SaneBps(bps)
    ensures Repeated(n, bps, k) >= n + k
    ensures bps >= 1819 ==> Pow(10, k) * Repeated(n, bps, k) >= Pow(11, k) * n
  {
    if k > 0 {
      RepeatedBumps(n, bps, k - 1);
      var prev := Repeated(n, bps, k - 1);
      BumpedIsMax(prev, bps);
      if bps >= 1819 {
        TenPercentFrom1819(prev, bps);
        Compound(Pow(10, k - 1), Pow(11, k - 1), n, prev, Bumped(prev, bps));
      }
    }
  }

  lemma Compound(p10: nat, p11: nat, n: nat, prev: nat, next: nat)
    requires p10 * prev >= p11 * n && 10 * next >= 11 * prev
    ensures 10 * p10 * next >= 11 * p11 * n
  {
    assert p10 * (10 * next) >= p10 * (11 * prev);
  }
}
