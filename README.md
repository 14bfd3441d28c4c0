# Insurance claims analyzer, modelled in Dafny

This project models the core of an insurance-claims analytics script. It has two routines:

- **The claim generator** (`InsuranceClaimsAnalyzer.generate_claims_data`). It builds one
  synthetic claim per iteration of `range(num_claims)`. The record has:
  - a sequential `CLM_`-prefixed identifier;
  - a claim type chosen from six types;
  - a log-normal amount whose parameters depend on the type, rounded to cents;
  - a fraud flag drawn with a probability capped at 0.15;
  - a status chosen from five statuses;
  - a claim age in days, a processing time, and padded policy and adjuster identifiers.
- **The fraud aggregator** (`analyze_fraud_patterns`). It reduces a frame of claims to:
  - the total count and the fraud count;
  - the fraud rate (the mean of the `is_fraud` column);
  - the summed fraud amount and the mean fraud amount.

Files:

- `Decimal.dfy` models Python's zero-padded integer formatting (`{n:06d}`, `{n:03d}`).
  `ValueOf` reads a digit string back. `LexLess` is Python's string order.
- `Claims.dfy` holds the constant lists and the per-type amount table. It also holds the
  fraud probability, rounding to cents, record construction and the generator.
- `FraudAnalysis.dfy` holds the aggregator, lemmas about its reductions, and lemmas
  about analysing generated data.

The random source is an input. Each iteration consumes one `Draw`, and its fields follow
the order in which the source calls the random generator:

1. the claim-type choice;
2. the log-normal sample;
3. the uniform value for the fraud flag;
4. the policy number;
5. the day offset;
6. the status choice;
7. the processing time;
8. the adjuster number.

The log-normal sample is a sampler function: `lognormal(params)` is the amount. So the model
can state which parameters the generator passes for each claim type. `ValidDraw` states
what numpy guarantees:

- `choice` returns a list element;
- a log-normal value is positive;
- `random()` lies in [0, 1);
- `randint(lo, hi)` lies in [lo, hi).

With the draws fixed, the generator is deterministic. The generator is a method with a loop
that appends one record per iteration. It is proved against the specification function
`ClaimsFor`. The aggregator is a set of pure functions.

Behaviour of the code worth noting:

- A count of zero or less gives an empty result, because `range` of a non-positive count
  is empty.
- `processing_days` lies in [1, 59], because `randint`'s upper bound is exclusive.
- Analysing an empty frame fails: `pd.DataFrame([])` has no `is_fraud` column. The model
  returns `Err(MissingColumn("is_fraud"))`.
- With no flagged claim, the average fraud amount is NaN. The model returns `None`.
- A recorded amount is rounded to cents, so it is non-negative but not necessarily positive
  (`SmallAmountsRoundToZero`).
- Identifiers are in increasing string order only up to 999999 records. The seventh digit
  breaks the order (`ClaimIdOrderPastMillion`).

## Model

| member | source | states |
|---|---|---|
| `Decimal.DigitsOf` | src/claims_analyzer.py:51 | The decimal rendering of a non-negative integer is a non-empty digit string. It starts with '0' exactly when the number is 0, and it has one digit exactly when the number is below 10. |
| `Decimal.ValueOfDigitsOf` | src/claims_analyzer.py:51 | Reading the rendering of `n` back as a number gives `n` (round trip). |
| `Decimal.FormatPadded` | src/claims_analyzer.py:51-59 | `{n:0Wd}` is a digit string that denotes `n` and is at least `W` long. It is longer than `W` only when it has no leading zero. |
| `Decimal.PaddedWidthExact` | src/claims_analyzer.py:51-59 | A number below 10^W renders in exactly `W` characters. |
| `Decimal.LexLessDigits` | src/claims_analyzer.py:51 | On digit strings of equal length, Python's string order is numeric order, in both directions. |
| `Decimal.PaddedOrder` | src/claims_analyzer.py:51 | Two `W`-padded renderings of numbers below 10^W compare as strings exactly as the numbers compare. |
| `Claims.ChoiceListsDistinct` | src/claims_analyzer.py:20-21 | There are six claim types and five statuses, each list without repeats, so a choice index names exactly one entry. |
| `Claims.AmountParams` | src/claims_analyzer.py:35-44 | Every branch gives a positive scale and a location between 6 and 11; any type other than Auto, Home, Health and Life takes the default (6, 1). |
| `Claims.AmountParamsByType` | src/claims_analyzer.py:35-44 | Auto uses (8, 1.2), Home (9, 1.5), Health (7, 1) and Life (11, 1.8). Travel and Business fall to the default (6, 1). Every listed type gets a positive scale. |
| `Claims.FraudProbability` | src/claims_analyzer.py:47 | The fraud probability is the minimum of 0.15 and amount/100000*0.1: it is at most each of them and equals one of them. It is non-negative for a non-negative amount. |
| `Claims.RoundHalfEven` | src/claims_analyzer.py:54 | The result is a nearest integer (within 0.5), and an exact tie goes to the even neighbour. |
| `Claims.RoundCents` | src/claims_analyzer.py:54 | `round(x, 2)` is a whole number of cents within half a cent of `x`; when `x` lies exactly halfway between two cents, the even cent is chosen. It is non-negative when `x` is. |
| `Claims.SmallAmountsRoundToZero` | src/claims_analyzer.py:54 | A positive amount below half a cent is recorded as 0.00. |
| `Claims.MakeClaim` | src/claims_analyzer.py:32-60 | The type and status come from their lists. Policy id is `POL_` + 6 digits in [1, 9999]; adjuster id is `ADJ_` + 3 digits in [1, 99]. Age is in [0, 364] days and processing time in [1, 59]. The id is `CLM_` + padded index+1. The amount is the sample drawn with the type's parameters, rounded to cents (so within half a cent of it). The status is the chosen status, the policy and adjuster ids read back as the drawn numbers, and age and processing time are the drawn values. The record is flagged exactly when the uniform draw is below the fraud probability of the unrounded sample, so never for a draw of 0.15 or more. |
| `Claims.ClaimId` | src/claims_analyzer.py:51 | The identifier of position `i` is `CLM_` followed by the 6-padded rendering of i+1, and it is 10 characters long while i+1 ≤ 999999. |
| `Claims.ClaimIdsDistinct` | src/claims_analyzer.py:51 | Identifiers of different sequence numbers differ. |
| `Claims.ClaimIdOrder` | src/claims_analyzer.py:51 | For numbers up to 999999, identifiers are 10 characters long, and their string order is the numeric order (both directions). |
| `Claims.ClaimIdOrderPastMillion` | src/claims_analyzer.py:51 | Record 1000000 gets "CLM_1000000", which sorts before record 999999's "CLM_999999". |
| `Claims.ClaimsFor` | src/claims_analyzer.py:29-62 | The first `n` iterations append `n` records; each is valid and record `k` carries the identifier of number k+1. |
| `Claims.ClaimsForProperties` | src/claims_analyzer.py:29-62 | Among the first `n` generated records, identifiers are pairwise distinct, and increasing in string order when n ≤ 999999. A flagged record had a uniform draw below 0.15. |
| `Claims.GenerateClaimsData` | src/claims_analyzer.py:27-64 | The count defaults to 5000. Returns `num_claims` records, or none for a count ≤ 0, equal to the specification `ClaimsFor`. It states the same validity, uniqueness, ordering and fraud-cap guarantees. |
| `FraudAnalysis.Sum` | src/claims_analyzer.py:72 | A column sum over non-negative values is non-negative. |
| `FraudAnalysis.Mean` | src/claims_analyzer.py:71-73 | The mean is undefined (NaN) exactly for no values; otherwise the mean times the number of values is their sum. |
| `FraudAnalysis.FraudRows` | src/claims_analyzer.py:70 | The masked frame has no more rows than the frame, and every row in it is a flagged row of the frame. |
| `FraudAnalysis.AnalyzeFraudPatterns` | src/claims_analyzer.py:66-76 | Fails exactly on an empty frame (missing `is_fraud` column). Otherwise: total is the row count, fraud count is the number of flagged positions (so ≤ total, and zero exactly when no row is flagged), rate = fraud/total in [0, 1], fraud amount is the masked sum. With no fraud, the amount is 0 and the average is NaN; with some fraud, average = amount/count. The amount is non-negative when all amounts are. |
| `FraudAnalysis.FraudRowsFilter` | src/claims_analyzer.py:70 | The boolean mask keeps each flagged row exactly as many times as the frame holds it, and no unflagged row. Its length is the number of flagged positions. |
| `FraudAnalysis.FraudFlagSum` | src/claims_analyzer.py:71 | The sum of the `is_fraud` column read as 0/1 equals the number of flagged rows, so its mean is the fraud count over the total. |
| `FraudAnalysis.FraudAmountIsMaskedSum` | src/claims_analyzer.py:72 | Summing the amounts of the masked rows equals summing the amount column with unflagged rows zeroed. |
| `FraudAnalysis.FraudAmountNonNegative` | src/claims_analyzer.py:72 | With no negative amount in the frame, the fraud amount is not negative. |
| `FraudAnalysis.GeneratedFraudBound` | src/claims_analyzer.py:47-48 | Generated data has no more flagged claims than there are uniform draws below 0.15. |
| `FraudAnalysis.AnalyzeGenerated` | src/claims_analyzer.py:29-73 | Analysing the frame of zero generated claims fails. For n > 0 claims: the total is n; the fraud rate is at most the share of uniform draws below 0.15; the fraud amount is non-negative; with no such draw there is no fraud and the average is undefined. |

## Left out

- Random number generation: the seeding in `__init__` (`np.random.seed`, `random.seed`) and numpy's sampling algorithms are not modelled. Their outputs are the `Draw` inputs, constrained only by the ranges numpy documents.
- Claims.GenerateClaimsData: requires at least `num_claims` draws, because the model's random source is a finite sequence while numpy's is unbounded.
- Floating point: amounts, probabilities and rates are exact reals. `round(amount, 2)` is round-half-even on the exact value. Binary-float representation error and NaN propagation are not modelled; NaN appears only as `None`.
- `datetime.now()` and `timedelta`: the wall clock is not modelled. A record keeps its day offset (`claimAgeDays`) instead of a timestamp.
- pandas: `pd.DataFrame` construction and boolean-mask indexing become a sequence of `Claim` records and a filter. Every empty sequence stands for the column-less frame the generator returns for zero claims. Frames from other sources are not part of this model.
- The `__main__` block (directory creation, CSV export, the printed count) is I/O glue and is not modelled.
- The unused `fraud_indicators` list and the unused `uuid` import are not modelled.
- Distributional properties of the sampled values are not modelled: a `Draw` is any value in numpy's ranges. This covers the per-type log-normal means and the expected fraud rate over many claims. What holds for every run is proved instead (`GeneratedFraudBound`, `AnalyzeGenerated`).
- Determinism for a fixed seed holds by construction: the model is a function of the count and the draws. No separate lemma states it.
