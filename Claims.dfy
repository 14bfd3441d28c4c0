/** The claim generator of `InsuranceClaimsAnalyzer`. Every random draw the
    generator makes is an input: one `Draw` per record, holding the values the
    random source hands back in the order the generator asks for them. With
    the draws fixed, generation is a deterministic function of the count and
    the draws. */
module Claims {
  import opened Decimal

  /** The list `np.random.choice` picks a claim type from. */
  const ClaimTypes: seq<string> := ["Auto", "Home", "Health", "Life", "Travel", "Business"]

  /** The list `np.random.choice` picks a status from. */
  const ClaimStatuses: seq<string> := ["Submitted", "Under Review", "Approved", "Denied", "Paid"]

  /** The two lists hold distinct entries, so an index into either names one
      type or status. */
  lemma ChoiceListsDistinct()
    ensures |ClaimTypes| == 6 && |ClaimStatuses| == 5
    ensures forall i, j :: 0 <= i < j < |ClaimTypes| ==> ClaimTypes[i] != ClaimTypes[j]
    ensures forall i, j :: 0 <= i < j < |ClaimStatuses| ==> ClaimStatuses[i] != ClaimStatuses[j]
  {
  }

  /** The cap on the per-claim fraud probability. */
  const MaxFraudProbability: real := 0.15

  /** Location and scale, in log space, of a log-normal amount. */
  datatype LogNormalParams = LogNormalParams(mean: real, sigma: real)

  /** The values one iteration of the generator draws, in the order it draws them:
      the claim-type choice (an index into `ClaimTypes`), the log-normal sampler
      (given the parameters the generator picks, it returns the amount), the
      uniform draw in [0, 1) for the fraud flag, the policy number, the claim's
      age in days, the status choice (an index into `ClaimStatuses`), the
      processing time and the adjuster number. */
  datatype Draw = Draw(
    typeChoice: int,
    lognormal: LogNormalParams -> real,
    uniform: real,
    policyNumber: int,
    dayOffset: int,
    statusChoice: int,
    processingDays: int,
    adjusterNumber: int)

  /** What the random source guarantees of its values: `choice` returns an element
      of its list, a log-normal sample is positive, `random()` lies in [0, 1), and
      `randint(lo, hi)` lies in the half-open range [lo, hi). */
  ghost predicate ValidDraw(d: Draw) {
    && 0 <= d.typeChoice < |ClaimTypes|
    && (forall p :: d.lognormal(p) > 0.0)
    && 0.0 <= d.uniform < 1.0
    && 1 <= d.policyNumber < 10000
    && 0 <= d.dayOffset < 365
    && 0 <= d.statusChoice < |ClaimStatuses|
    && 1 <= d.processingDays < 60
    && 1 <= d.adjusterNumber < 100
  }

  /** One generated record. `claimAgeDays` is how many days before the moment of
      generation the claim is dated. */
  datatype Claim = Claim(
    claimId: string,
    policyId: string,
    claimType: string,
    amount: real,
    claimAgeDays: int,
    status: string,
    isFraud: bool,
    processingDays: int,
    adjusterId: string)

  // ---------------------------------------------------------------------
  // The pieces of one record

  /** The log-normal parameters of the amount, chosen by claim type. */
  function AmountParams(claimType: string): (p: LogNormalParams)
    ensures 0.0 < p.sigma && 6.0 <= p.mean <= 11.0
    ensures claimType !in ["Auto", "Home", "Health", "Life"] ==> p == LogNormalParams(6.0, 1.0)
  {
    if claimType == "Auto" then LogNormalParams(8.0, 1.2)
    else if claimType == "Home" then LogNormalParams(9.0, 1.5)
    else if claimType == "Health" then LogNormalParams(7.0, 1.0)
    else if claimType == "Life" then LogNormalParams(11.0, 1.8)
    else LogNormalParams(6.0, 1.0)
  }

  /** The table as it applies to the six claim types the generator chooses from:
      the last two, Travel and Business, take the default parameters. */
  lemma AmountParamsByType()
    ensures AmountParams(ClaimTypes[0]) == LogNormalParams(8.0, 1.2)
    ensures AmountParams(ClaimTypes[1]) == LogNormalParams(9.0, 1.5)
    ensures AmountParams(ClaimTypes[2]) == LogNormalParams(7.0, 1.0)
    ensures AmountParams(ClaimTypes[3]) == LogNormalParams(11.0, 1.8)
    ensures AmountParams(ClaimTypes[4]) == LogNormalParams(6.0, 1.0)
    ensures AmountParams(ClaimTypes[5]) == LogNormalParams(6.0, 1.0)
    ensures forall t :: t in ClaimTypes ==> AmountParams(t).sigma > 0.0
  {
  }

  /** `min(0.15, amount / 100000 * 0.1)`: the smaller of the cap and the
      amount-driven risk. */
  function FraudProbability(amount: real): (p: real)
    ensures p <= MaxFraudProbability && p <= amount / 100000.0 * 0.1
    ensures p == MaxFraudProbability || p == amount / 100000.0 * 0.1
    ensures 0.0 <= amount ==> 0.0 <= p
  {
    var risk := amount / 100000.0 * 0.1;
    if risk < MaxFraudProbability then risk else MaxFraudProbability
  }

  /** The nearest integer to `y`, ties going to the even neighbour (Python's `round`). */
  function RoundHalfEven(y: real): (k: int)
    ensures y - 0.5 <= k as real <= y + 0.5
    ensures (k as real == y - 0.5 || k as real == y + 0.5) ==> k % 2 == 0
  {
    var f := y.Floor;
    var fraction := y - f as real;
    if fraction < 0.5 then f
    else if fraction > 0.5 then f + 1
    else if f % 2 == 0 then f
    else f + 1
  }

  /** `round(x, 2)` on the exact value of `x`: a whole number of cents within half
      a cent of `x`. */
  function RoundCents(x: real): (r: real)
    ensures x - 0.005 <= r <= x + 0.005
    ensures (r * 100.0).Floor as real == r * 100.0
    ensures (r == x - 0.005 || r == x + 0.005) ==> (r * 100.0).Floor % 2 == 0
    ensures 0.0 <= x ==> 0.0 <= r
  {
    RoundHalfEven(x * 100.0) as real / 100.0
  }

  /** Rounding to cents can turn a positive amount into zero, so a recorded amount
      is non-negative but not necessarily positive. */
  lemma SmallAmountsRoundToZero(x: real)
    requires 0.0 < x < 0.005
    ensures RoundCents(x) == 0.0
  {
    assert (x * 100.0).Floor == 0;
  }

  // ---------------------------------------------------------------------
  // Identifiers

  /** `f'CLM_{i+1:06d}'` for the record at 0-based position `index`. */
  function ClaimId(index: nat): (id: string)
    ensures IsClaimIdFor(id, index + 1)
    ensures index < 999999 ==> |id| == 10
  {
    var digits := FormatPadded(index + 1, 6);
    Pow10ThreeAndSix();
    assert index < 999999 ==> |digits| == 6 by {
      if index < 999999 {
        PaddedWidthExact(digits, index + 1, 6);
      }
    }
    assert ("CLM_" + digits)[..4] == "CLM_" && ("CLM_" + digits)[4..] == digits;
    "CLM_" + digits
  }

  /** `id` is "CLM_" followed by the 6-padded decimal rendering of `number`. */
  predicate IsClaimIdFor(id: string, number: nat) {
    |id| >= 4 && id[..4] == "CLM_" && IsPaddedDecimal(id[4..], number, 6)
  }

  /** `id` is `prefix` followed by exactly `width` digits denoting a number in [lo, hi). */
  predicate HasPaddedNumber(id: string, prefix: string, width: nat, lo: int, hi: int) {
    && |id| == |prefix| + width
    && id[..|prefix|] == prefix
    && IsDigits(id[|prefix|..])
    && lo <= ValueOf(id[|prefix|..]) < hi
  }

  /** What holds of every generated record. */
  predicate ValidClaim(c: Claim) {
    && c.claimType in ClaimTypes
    && c.status in ClaimStatuses
    && 0.0 <= c.amount
    && 0 <= c.claimAgeDays < 365
    && 1 <= c.processingDays < 60
    && HasPaddedNumber(c.policyId, "POL_", 6, 1, 10000)
    && HasPaddedNumber(c.adjusterId, "ADJ_", 3, 1, 100)
  }

  lemma PrefixedPadded(prefix: string, digits: string, n: nat, width: nat, lo: int, hi: int)
    requires 1 <= width && n < Pow10(width) && lo <= n < hi
    requires IsPaddedDecimal(digits, n, width)
    ensures HasPaddedNumber(prefix + digits, prefix, width, lo, hi)
  {
    PaddedWidthExact(digits, n, width);
    assert (prefix + digits)[..|prefix|] == prefix;
    assert (prefix + digits)[|prefix|..] == digits;
  }

  /** The record built from the draws of iteration `index`. */
  function MakeClaim(index: nat, d: Draw): (c: Claim)
    requires ValidDraw(d)
    ensures ValidClaim(c) && IsClaimIdFor(c.claimId, index + 1)
    ensures c.claimType == ClaimTypes[d.typeChoice]
    ensures -0.005 <= c.amount - d.lognormal(AmountParams(c.claimType)) <= 0.005
    ensures c.isFraud <==> d.uniform < FraudProbability(d.lognormal(AmountParams(c.claimType)))
    ensures c.isFraud ==> d.uniform < MaxFraudProbability
    ensures c.amount == RoundCents(d.lognormal(AmountParams(c.claimType)))
    ensures c.status == ClaimStatuses[d.statusChoice]
    ensures c.claimAgeDays == d.dayOffset && c.processingDays == d.processingDays
    ensures ValueOf(c.policyId[4..]) == d.policyNumber
    ensures ValueOf(c.adjusterId[4..]) == d.adjusterNumber
  {
    var claimType := ClaimTypes[d.typeChoice];
    var amount := d.lognormal(AmountParams(claimType));
    var isFraud := d.uniform < FraudProbability(amount);
    var policyDigits := FormatPadded(d.policyNumber, 6);
    var adjusterDigits := FormatPadded(d.adjusterNumber, 3);
    Pow10ThreeAndSix();
    PrefixedPadded("POL_", policyDigits, d.policyNumber, 6, 1, 10000);
    PrefixedPadded("ADJ_", adjusterDigits, d.adjusterNumber, 3, 1, 100);
    Claim(
      ClaimId(index),
      "POL_" + policyDigits,
      claimType,
      RoundCents(amount),
      d.dayOffset,
      ClaimStatuses[d.statusChoice],
      isFraud,
      d.processingDays,
      "ADJ_" + adjusterDigits)
  }

  /** Identifiers of different numbers differ. */
  lemma ClaimIdsDistinct(s: string, n: nat, t: string, m: nat)
    requires IsClaimIdFor(s, n) && IsClaimIdFor(t, m) && n != m
    ensures s != t
  {
  }

  /** Up to 999999, identifiers are 10 characters long and their string order is
      the order of their numbers. */
  lemma ClaimIdOrder(s: string, n: nat, t: string, m: nat)
    requires IsClaimIdFor(s, n) && IsClaimIdFor(t, m)
    requires n <= 999999 && m <= 999999
    ensures |s| == 10 && |t| == 10
    ensures n < m <==> LexLess(s, t)
  {
    Pow10ThreeAndSix();
    PaddedOrder(s[4..], n, t[4..], m, 6);
    PaddedWidthExact(s[4..], n, 6);
    PaddedWidthExact(t[4..], m, 6);
    LexLessCommonPrefix(s, t, 4);
  }

  /** Past 999999 the identifier grows a seventh digit and string order no longer
      follows generation order: "CLM_1000000" sorts before "CLM_999999". */
  lemma ClaimIdOrderPastMillion()
    ensures ClaimId(999998) == "CLM_999999" && ClaimId(999999) == "CLM_1000000"
    ensures LexLess(ClaimId(999999), ClaimId(999998))
  {
    DigitsOfLastSixDigitNumber();
    DigitsOfMillion();
    assert FormatPadded(999999, 6) == "999999";
    assert FormatPadded(1000000, 6) == "1000000";
    LexLessPrefix("CLM_", "1000000", "999999");
  }

  lemma DigitsOfLastSixDigitNumber()
    ensures DigitsOf(999999) == "999999"
  {
  }

  lemma DigitsOfMillion()
    ensures DigitsOf(1000000) == "1000000"
  {
  }

  // ---------------------------------------------------------------------
  // The generator

  /** The records of the first `n` iterations. */
  function ClaimsFor(n: nat, draws: seq<Draw>): (claims: seq<Claim>)
    requires n <= |draws| && forall i :: 0 <= i < n ==> ValidDraw(draws[i])
    ensures |claims| == n
    ensures forall k :: 0 <= k < n ==> ValidClaim(claims[k]) && IsClaimIdFor(claims[k].claimId, k + 1)
  {
    seq(n, i requires 0 <= i < n => MakeClaim(i, draws[i]))
  }

  lemma ClaimsForSnoc(n: nat, draws: seq<Draw>)
    requires n < |draws| && forall i :: 0 <= i <= n ==> ValidDraw(draws[i])
    ensures ClaimsFor(n + 1, draws) == ClaimsFor(n, draws) + [MakeClaim(n, draws[n])]
  {
  }

  /** What every prefix of the generated records satisfies: identifiers are pairwise
      distinct and, up to 999999 records, increasing in string order, and only a
      uniform draw below the cap can flag fraud. */
  lemma ClaimsForProperties(n: nat, draws: seq<Draw>)
    requires n <= |draws| && forall i :: 0 <= i < n ==> ValidDraw(draws[i])
    ensures var claims := ClaimsFor(n, draws);
      && (forall j, k :: 0 <= j < k < n ==> claims[j].claimId != claims[k].claimId)
      && (n <= 999999 ==> forall j, k :: 0 <= j < k < n ==> LexLess(claims[j].claimId, claims[k].claimId))
      && (forall k :: 0 <= k < n && claims[k].isFraud ==> draws[k].uniform < MaxFraudProbability)
  {
    var claims := ClaimsFor(n, draws);
    forall j, k | 0 <= j < k < n
      ensures claims[j].claimId != claims[k].claimId
      ensures n <= 999999 ==> LexLess(claims[j].claimId, claims[k].claimId)
    {
      ClaimIdsDistinct(claims[j].claimId, j + 1, claims[k].claimId, k + 1);
      if n <= 999999 {
        ClaimIdOrder(claims[j].claimId, j + 1, claims[k].claimId, k + 1);
      }
    }
  }

  /** `generate_claims_data(num_claims)`: one record per iteration of
      `range(num_claims)`, so none at all for a count of zero or less. The count
      defaults to 5000, as in the source; the draws come first because they have
      no default. */
  method GenerateClaimsData(draws: seq<Draw>, numClaims: int := 5000) returns (claims: seq<Claim>)
    requires numClaims <= |draws|
    requires forall i :: 0 <= i < numClaims ==> ValidDraw(draws[i])
    ensures |claims| == if numClaims > 0 then numClaims else 0
    ensures claims == ClaimsFor(|claims|, draws)
    ensures forall k :: 0 <= k < |claims| ==> ValidClaim(claims[k]) && IsClaimIdFor(claims[k].claimId, k + 1)
    ensures forall j, k :: 0 <= j < k < |claims| ==> claims[j].claimId != claims[k].claimId
    ensures |claims| <= 999999 ==>
      forall j, k :: 0 <= j < k < |claims| ==> LexLess(claims[j].claimId, claims[k].claimId)
    ensures forall k :: 0 <= k < |claims| && claims[k].isFraud ==> draws[k].uniform < MaxFraudProbability
  {
    claims := [];
    var i := 0;
    while i < numClaims
      invariant 0 <= i <= (if numClaims > 0 then numClaims else 0)
      invariant claims == ClaimsFor(i, draws)
    {
      var claim := MakeClaim(i, draws[i]);
      ClaimsForSnoc(i, draws);
      claims := claims + [claim];
      i := i + 1;
    }
    ClaimsForProperties(i, draws);
  }
}
