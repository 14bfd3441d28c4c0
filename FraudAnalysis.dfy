/** `analyze_fraud_patterns`: summary figures over a frame of claims. The frame
    is the sequence of records the generator returns; the boolean mask
    `claims_df[claims_df['is_fraud']]` is `FraudRows`, a column is a sequence
    with one entry per row, and pandas' `sum` and `mean` are `Sum` and `Mean`
    (the mean of no values is NaN, here `None`). */
module FraudAnalysis {
  import opened Claims

  datatype Option<T> = None | Some(value: T)

  datatype Result<T, E> = Ok(value: T) | Err(error: E)

  /** A frame built from an empty list of records has no columns at all, so
      selecting the `is_fraud` column fails. */
  datatype AnalysisError = MissingColumn(name: string)

  /** The dictionary `analyze_fraud_patterns` returns. `avgFraudAmount` is `None`
      where pandas produces NaN. */
  datatype FraudSummary = FraudSummary(
    totalClaims: nat,
    fraudClaims: nat,
    fraudRate: real,
    fraudAmount: real,
    avgFraudAmount: Option<real>)

  // ---------------------------------------------------------------------
  // Columns, masks and reductions

  /** pandas' `sum`: 0 for no values. */
  function Sum(xs: seq<real>): (total: real)
    ensures (forall i :: 0 <= i < |xs| ==> 0.0 <= xs[i]) ==> 0.0 <= total
  {
    if xs == [] then 0.0 else Sum(xs[..|xs| - 1]) + xs[|xs| - 1]
  }

  /** pandas' `mean`: NaN (`None`) for no values. */
  function Mean(xs: seq<real>): (m: Option<real>)
    ensures m.None? <==> xs == []
    ensures m.Some? ==> m.value * |xs| as real == Sum(xs)
  {
    if xs == [] then None else Some(Sum(xs) / |xs| as real)
  }

  /** The positions of the flagged rows. */
  function FlaggedPositions(claims: seq<Claim>): set<int> {
    set i | 0 <= i < |claims| && claims[i].isFraud
  }

  /** `claims_df[claims_df['is_fraud']]`: the flagged rows, in frame order. */
  function FraudRows(claims: seq<Claim>): (rows: seq<Claim>)
    ensures |rows| <= |claims|
    ensures forall c :: c in rows ==> c in claims && c.isFraud
  {
    if claims == [] then []
    else
      var last := claims[|claims| - 1];
      FraudRows(claims[..|claims| - 1]) + (if last.isFraud then [last] else [])
  }

  /** The `is_fraud` column read as numbers, True counting as 1. */
  function FraudFlags(claims: seq<Claim>): (flags: seq<real>) {
    seq(|claims|, i requires 0 <= i < |claims| => if claims[i].isFraud then 1.0 else 0.0)
  }

  /** The `amount` column. */
  function Amounts(claims: seq<Claim>): (amounts: seq<real>) {
    seq(|claims|, i requires 0 <= i < |claims| => claims[i].amount)
  }

  /** The `amount` column with every unflagged row's amount replaced by 0. */
  function MaskedAmounts(claims: seq<Claim>): (masked: seq<real>) {
    seq(|claims|, i requires 0 <= i < |claims| => if claims[i].isFraud then claims[i].amount else 0.0)
  }

  // ---------------------------------------------------------------------
  // The analysis

  /** `analyze_fraud_patterns(claims_df)`. */
  function AnalyzeFraudPatterns(claims: seq<Claim>): (r: Result<FraudSummary, AnalysisError>)
    ensures r.Err? <==> claims == []
    ensures r.Err? ==> r.error == MissingColumn("is_fraud")
    ensures r.Ok? ==>
      && r.value.totalClaims == |claims|
      && r.value.fraudClaims == |FlaggedPositions(claims)|
      && r.value.fraudClaims <= r.value.totalClaims
      && (r.value.fraudClaims == 0 <==> forall c :: c in claims ==> !c.isFraud)
      && r.value.fraudRate == r.value.fraudClaims as real / r.value.totalClaims as real
      && 0.0 <= r.value.fraudRate <= 1.0
      && r.value.fraudAmount == Sum(MaskedAmounts(claims))
      && (r.value.fraudClaims == 0 ==> r.value.fraudAmount == 0.0 && r.value.avgFraudAmount == None)
      && (r.value.fraudClaims > 0 ==>
            r.value.avgFraudAmount == Some(r.value.fraudAmount / r.value.fraudClaims as real))
      && ((forall c :: c in claims ==> 0.0 <= c.amount) ==> 0.0 <= r.value.fraudAmount)
  {
    if claims == [] then Err(MissingColumn("is_fraud"))
    else
      var fraud := FraudRows(claims);
      FraudRowsFilter(claims);
      FraudFlagSum(claims);
      FraudAmountIsMaskedSum(claims);
      RateBounds(|fraud|, |claims|);
      FraudAmountNonNegative(claims);
      Ok(FraudSummary(
        |claims|,
        |fraud|,
        Mean(FraudFlags(claims)).value,
        Sum(Amounts(fraud)),
        Mean(Amounts(fraud))))
  }

  // ---------------------------------------------------------------------
  // Lemmas about the reductions

  /** The mask keeps every flagged row as often as the frame holds it and no
      other row, so it has one row per flagged position. */
  lemma FraudRowsFilter(claims: seq<Claim>)
    ensures forall c :: multiset(FraudRows(claims))[c] == if c.isFraud then multiset(claims)[c] else 0
    ensures forall c :: c in claims && c.isFraud ==> c in FraudRows(claims)
    ensures |FraudRows(claims)| == |FlaggedPositions(claims)|
  {
    FraudRowsMultiplicity(claims);
    FraudRowsCount(claims);
    forall c | c in claims && c.isFraud ensures c in FraudRows(claims) {
      assert multiset(claims)[c] > 0;
    }
  }

  lemma {:induction false} FraudRowsMultiplicity(claims: seq<Claim>)
    ensures forall c :: multiset(FraudRows(claims))[c] == if c.isFraud then multiset(claims)[c] else 0
  {
    if claims != [] {
      var init, last := claims[..|claims| - 1], claims[|claims| - 1];
      assert claims == init + [last];
      FraudRowsMultiplicity(init);
      assert multiset(claims) == multiset(init) + multiset{last};
      if !last.isFraud {
        assert FraudRows(claims) == FraudRows(init);
      }
    }
  }

  lemma {:induction false} FraudRowsCount(claims: seq<Claim>)
    ensures |FraudRows(claims)| == |FlaggedPositions(claims)|
  {
    if claims != [] {
      var init, last := claims[..|claims| - 1], claims[|claims| - 1];
      assert claims == init + [last];
      FraudRowsCount(init);
      FraudRowsSnoc(init, last);
      FlaggedPositionsSnoc(init, last);
    }
  }

  lemma FlaggedPositionsSnoc(claims: seq<Claim>, c: Claim)
    ensures |FlaggedPositions(claims + [c])| == |FlaggedPositions(claims)| + (if c.isFraud then 1 else 0)
  {
    var before, after := FlaggedPositions(claims), FlaggedPositions(claims + [c]);
    assert |claims| !in before;
    if c.isFraud {
      assert after == before + {|claims|};
    } else {
      assert after == before;
    }
  }

  /** The sum of the numeric `is_fraud` column counts the flagged rows. */
  lemma {:induction false} FraudFlagSum(claims: seq<Claim>)
    ensures Sum(FraudFlags(claims)) == |FraudRows(claims)| as real
  {
    if claims != [] {
      var init := claims[..|claims| - 1];
      assert FraudFlags(claims)[..|claims| - 1] == FraudFlags(init);
      FraudFlagSum(init);
    }
  }

  lemma AmountsSnoc(rows: seq<Claim>, c: Claim)
    ensures Sum(Amounts(rows + [c])) == Sum(Amounts(rows)) + c.amount
  {
    assert Amounts(rows + [c])[..|rows|] == Amounts(rows);
  }

  /** Summing the amounts of the flagged rows is summing the masked column. */
  lemma {:induction false} FraudAmountIsMaskedSum(claims: seq<Claim>)
    ensures Sum(Amounts(FraudRows(claims))) == Sum(MaskedAmounts(claims))
  {
    if claims != [] {
      var init, last := claims[..|claims| - 1], claims[|claims| - 1];
      MaskedAmountsSnoc(claims);
      FraudAmountIsMaskedSum(init);
      if last.isFraud {
        assert FraudRows(claims) == FraudRows(init) + [last];
        AmountsSnoc(FraudRows(init), last);
      } else {
        assert FraudRows(claims) == FraudRows(init);
      }
    }
  }

  lemma MaskedAmountsSnoc(claims: seq<Claim>)
    requires claims != []
    ensures var last := claims[|claims| - 1];
      Sum(MaskedAmounts(claims))
        == Sum(MaskedAmounts(claims[..|claims| - 1])) + (if last.isFraud then last.amount else 0.0)
  {
    assert MaskedAmounts(claims)[..|claims| - 1] == MaskedAmounts(claims[..|claims| - 1]);
  }

  /** With no negative amount in the frame, the fraud amount is not negative. */
  lemma FraudAmountNonNegative(claims: seq<Claim>)
    ensures (forall c :: c in claims ==> 0.0 <= c.amount) ==> 0.0 <= Sum(Amounts(FraudRows(claims)))
  {
    if forall c :: c in claims ==> 0.0 <= c.amount {
      var amounts := Amounts(FraudRows(claims));
      forall i | 0 <= i < |amounts| ensures 0.0 <= amounts[i] {
        assert FraudRows(claims)[i] in FraudRows(claims);
      }
    }
  }

  lemma RateBounds(count: nat, total: nat)
    requires count <= total && 0 < total
    ensures 0.0 <= count as real / total as real <= 1.0
  {
  }

  // ---------------------------------------------------------------------
  // The analysis of generated data

  /** How many of the draws have a uniform value below the fraud-probability cap. */
  function LowDrawCount(draws: seq<Draw>): (count: nat) {
    if draws == [] then 0
    else LowDrawCount(draws[..|draws| - 1]) + (if draws[|draws| - 1].uniform < MaxFraudProbability then 1 else 0)
  }

  /** Since the fraud probability never exceeds the cap, generated data holds no
      more fraud than there are uniform draws below the cap. */
  lemma {:induction false} GeneratedFraudBound(n: nat, draws: seq<Draw>)
    requires n <= |draws| && forall i :: 0 <= i < n ==> ValidDraw(draws[i])
    ensures |FraudRows(ClaimsFor(n, draws))| <= LowDrawCount(draws[..n])
  {
    if n > 0 {
      GeneratedFraudBound(n - 1, draws);
      ClaimsForSnoc(n - 1, draws);
      var last := MakeClaim(n - 1, draws[n - 1]);
      FraudRowsSnoc(ClaimsFor(n - 1, draws), last);
      LowDrawCountSnoc(draws, n);
    }
  }

  lemma FraudRowsSnoc(claims: seq<Claim>, c: Claim)
    ensures |FraudRows(claims + [c])| == |FraudRows(claims)| + (if c.isFraud then 1 else 0)
  {
    assert (claims + [c])[..|claims|] == claims;
  }

  lemma LowDrawCountSnoc(draws: seq<Draw>, n: nat)
    requires 0 < n <= |draws|
    ensures LowDrawCount(draws[..n])
      == LowDrawCount(draws[..n - 1]) + (if draws[n - 1].uniform < MaxFraudProbability then 1 else 0)
  {
    assert draws[..n][..n - 1] == draws[..n - 1];
  }

  /** Analysing a generated frame: a count of zero or less yields an empty frame
      and the analysis fails; otherwise every record is counted, the fraud rate is
      bounded by the share of uniform draws below the cap, the fraud amount is not
      negative, and with no such draw there is no fraud and no average. */
  lemma AnalyzeGenerated(n: nat, draws: seq<Draw>)
    requires n <= |draws| && forall i :: 0 <= i < n ==> ValidDraw(draws[i])
    ensures var r := AnalyzeFraudPatterns(ClaimsFor(n, draws));
      && (n == 0 ==> r == Err(MissingColumn("is_fraud")))
      && (n > 0 ==>
            && r.Ok?
            && r.value.totalClaims == n
            && r.value.fraudRate <= LowDrawCount(draws[..n]) as real / n as real
            && 0.0 <= r.value.fraudAmount
            && (LowDrawCount(draws[..n]) == 0 ==> r.value.fraudClaims == 0 && r.value.avgFraudAmount == None))
  {
    if n > 0 {
      var claims := ClaimsFor(n, draws);
      GeneratedAmountsNonNegative(n, draws);
      GeneratedFraudBound(n, draws);
      RateMonotone(|FraudRows(claims)|, LowDrawCount(draws[..n]), n);
    }
  }

  lemma GeneratedAmountsNonNegative(n: nat, draws: seq<Draw>)
    requires n <= |draws| && forall i :: 0 <= i < n ==> ValidDraw(draws[i])
    ensures forall c :: c in ClaimsFor(n, draws) ==> 0.0 <= c.amount
  {
    var claims := ClaimsFor(n, draws);
    forall c | c in claims ensures 0.0 <= c.amount {
      var k :| 0 <= k < n && claims[k] == c;
      assert ValidClaim(MakeClaim(k, draws[k]));
    }
  }

  lemma RateMonotone(count: nat, bound: nat, total: nat)
    requires count <= bound && 0 < total
    ensures count as real / total as real <= bound as real / total as real
  {
  }
}
