# AURORA BMI — verified model of the scoring core

AURORA BMI is a daily breadth index. From the day's market data it
computes four breadth features:

- VPB, volume participation breadth: advancing volume over total volume.
- IPB, issue participation breadth: advancing issues over total issues.
- SBC, structural breadth confirmation: the mean share of stocks above their 50-day and 200-day averages.
- IPO, institutional participation overlay: the share of stocks whose relative volume spikes above both a threshold and the universe median.

Each feature is z-scored, unclipped, against a rolling 63-day baseline
that becomes ready after 21 observations. The z-scores are combined with
frozen weights (VPB 0.30, IPB 0.25, SBC 0.25, IPO 0.20) into a raw
composite. The composite is ranked against its own history and inverted
into a 0–100 score: a high composite gives a low score. The score is
classified into a band, GREEN ≤ 25 < LIGHT_GREEN ≤ 50 < YELLOW ≤ 75 < RED.
An explanation names the strongest drivers and flags a VPB/IPB divergence.

Around the engine sit the pure helpers of the data clients:

- advance/decline tallies from Polygon and FMP records;
- the dark-pool endpoint guard and relative-volume medians of the Unusual Whales client;
- the close-above-open proxy for moving-average breadth;
- the universe builder's liquidity filters and ticker de-duplication.

One Dafny module per source file:

| module | models |
|---|---|
| `Constants`, `Types` | `aurora/core/constants.py`, `aurora/core/types.py` |
| `Methods`, `Rolling`, `Pipeline` | `aurora/normalization/*.py` |
| `Composite`, `Engine` | `aurora/scoring/*.py` |
| `Vpb`, `Ipb`, `Sbc`, `Ipo`, `Aggregator`, `MaBreadth` | `aurora/features/*.py` |
| `Explain` | `aurora/explain/generator.py` |
| `Polygon`, `Fmp`, `UnusualWhales` | the pure helpers of `aurora/ingest/*.py` |
| `Builder` | `aurora/universe/builder.py` |

Supporting modules hold the shared arithmetic and sequence facts:

- `Numeric`: sums, means, variances and counts;
- `Sorting`: a stable insertion sort and the median;
- `Seqs`: bounded FIFO windows;
- `Text`: ASCII case mapping and lexicographic order;
- `Readings`: the five-grade and three-way interpretation scales;
- `Wrappers`: `Option`.

The model follows the source's form:

- The rolling windows, the calculator's dictionary of windows and the pipeline's composite history are classes whose methods update fields in place.
- Loops in the source are methods with loop invariants, each proved equal to a recursive specification function. This covers the accumulating loops of the composite, the IPO spike count, the client helpers, the filters, de-duplication and the explanation's line building.
- Pure code is functions.

Floating-point numbers are modelled as `real`. `exp` and `sqrt` are
parameters of type `Numeric.Maths`. The model relies only on three facts
about them: `exp` is positive, `sqrt` is non-negative on non-negative
arguments, and `sqrt` is zero exactly at zero.

Where the documentation and the code disagree, the model follows the
code:

- The `UniverseConfig` docstring asks for price, volume and market cap strictly above the minimums. `_apply_filters` drops a candidate only when it is below a minimum, so the minimums are inclusive (`Builder.MinimumsInclusive`).
- The band docstring and the threshold table give ranges that share their end points (0–25, 25–50, …). `Band.from_score` puts exactly 25, 50 and 75 in the lower band.

## Model

| member | source | states |
|---|---|---|
| Constants.WeightsSumToOne | aurora/core/constants.py:16-24 | the four frozen weights add up to exactly 1 |
| Constants.WeightsPositiveVpbLargest | aurora/core/constants.py:16-21 | every weight is positive and VPB's is the largest |
| Constants.ReadinessWithinWindow | aurora/core/constants.py:30-31 | the readiness threshold (21) lies between 2 and the window (63), so a window can become ready |
| Constants.BandThresholdsContiguous | aurora/core/constants.py:38-43 | the band ranges start at 0, end at 100, are non-empty, and each ends where the next begins |
| Constants.FeatureNamesAreWeightKeys | aurora/core/constants.py:16-63 | the feature names are the weight keys in weight order, without repetition |
| Constants.WeightOf | aurora/core/constants.py:16-21 | a name has a positive weight exactly when it is a feature name, and that weight is its entry in the table |
| Types.Band.Rank | aurora/core/types.py:13-31 | a band's rank indexes its own row of the threshold table |
| Types.BandFromScore | aurora/core/types.py:44-51 | GREEN iff score ≤ 25, LIGHT_GREEN iff 25 < score ≤ 50, YELLOW iff 50 < score ≤ 75, RED iff score > 75; the boundaries belong to the lower band |
| Types.BandFromScoreMonotone | aurora/core/types.py:44-51 | a higher score never gives a healthier band |
| Types.BandFromScoreMatchesThresholds | aurora/core/types.py:44-51 | every score in [0, 100] lies within the threshold row of its band |
| Types.ScoreComponent.ContributionPct | aurora/core/types.py:94-96 | the contribution percentage is 100 × the magnitude of the contribution: never negative, and zero only for a zero contribution |
| Types.ScoreComponent.Direction | aurora/core/types.py:99-106 | elevated iff z > 0.5, depressed iff z < -0.5, neutral iff -0.5 ≤ z ≤ 0.5 |
| Types.LastZscore | aurora/core/types.py:174-181 | the z-score of the last component with the name, absent exactly when no component has it |
| Types.LastZscoreNext | aurora/core/types.py:174-179 | one more step of the scan overwrites the result only on a matching name |
| Types.BMIResult.IsHealthy | aurora/core/types.py:156-158 | healthy iff the band is GREEN or LIGHT_GREEN |
| Types.HealthyIffScoreAtMost50 | aurora/core/types.py:156-158 | for a result whose band is that of its score, healthy iff the score is at most 50 |
| Types.BMIResult.VpbIpbDivergence | aurora/core/types.py:161-183 | present iff both VPB and IPB components exist, and then the last VPB z minus the last IPB z |
| Types.FeatureSet.Value | aurora/core/types.py:213-216 | each feature name reads its own computed metric; other names read nothing |
| Types.DefaultUniverseConfig | aurora/core/types.py:267-273 | the default minimums: $2B cap, $5 price, 1M volume, $1B free-float cap, 10% size warning |
| Types.UniverseSnapshot.SizeChangePct | aurora/core/types.py:292-296 | absent iff there is no previous count or it is 0; otherwise the relative change times the previous count is the change in count |
| Types.UniverseSnapshot.SizeChangeWarning | aurora/core/types.py:299-302 | a warning iff the relative change is defined and exceeds 10% in magnitude |
| Types.SizeChangeWarningIntegral | aurora/core/types.py:292-302 | the warning is exactly a change in count of more than a tenth of the previous count, either way |
| Methods.ZscoreNormalize | aurora/normalization/methods.py:43-54 | 0 when the deviation is missing or zero; otherwise z × std = value − mean, with no clipping |
| Methods.ZscoreUnclipped | aurora/normalization/methods.py:50-54 | any target z-score, however extreme, is returned for the value lying that many deviations from the mean |
| Methods.ZscoreMonotone | aurora/normalization/methods.py:50-54 | with a positive deviation, a larger value never gets a smaller z-score |
| Methods.PercentileRank | aurora/normalization/methods.py:74-86 | 50 for an empty history; otherwise rank × n = 100 × the number of strictly smaller entries; always within [0, 100] |
| Methods.PercentileRankMonotone | aurora/normalization/methods.py:81-84 | for a fixed history, the rank never decreases as the value grows |
| Methods.PercentileRankExtremes | aurora/normalization/methods.py:81-86 | a value at or below every entry ranks 0, and a value above every entry ranks 100 |
| Methods.MidRank | aurora/normalization/methods.py:110-117 | the tie-adjusted count lies between the strictly-smaller count and the smaller-or-equal count |
| Methods.PercentileRankWithTies | aurora/normalization/methods.py:106-118 | 50 for an empty history; otherwise rank × n = 100 × (smaller + equal/2); always within [0, 100] |
| Methods.TiesRankAtLeastStrict | aurora/normalization/methods.py:81-118 | the tie-adjusted rank is never below the strict rank, and equals it when the value is not in the history |
| Methods.PyTail | aurora/normalization/methods.py:139 | Python's `values[-window:]`: the last `window` entries, or all of them for window 0 |
| Methods.RollingMean | aurora/normalization/methods.py:135-139 | absent iff there are fewer values than the window; otherwise the mean of the last `window` values |
| Methods.RollingMeanOfConstant | aurora/normalization/methods.py:135-139 | the rolling mean of a constant series is that constant |
| Methods.RollingStd | aurora/normalization/methods.py:158-162 | absent iff there are fewer values than the window; otherwise a non-negative deviation |
| Numeric.Sigmoid | aurora/normalization/methods.py:165-184 | the logistic value lies strictly between 0 and 1 |
| Rolling.RollingStats.constructor | aurora/normalization/rolling.py:35-38 | a new window is empty and keeps its name, size and threshold |
| Rolling.RollingStats.Add | aurora/normalization/rolling.py:40-49 | value and date go in at the newest end; when full, the oldest pair is evicted; the window stays within its size and values and dates stay in step |
| Rolling.RollingStats.AddBulk | aurora/normalization/rolling.py:51-60 | feeds the zipped pairs in order, stopping at the shorter sequence: the windows are the newest entries of the old ones followed by the pairs |
| Rolling.RollingStats.Count | aurora/normalization/rolling.py:63-65 | the number of observations held, never more than the window |
| Rolling.RollingStats.Mean | aurora/normalization/rolling.py:67-77 | absent iff fewer than the threshold observations are held; otherwise the mean of the window |
| Rolling.RollingStats.Std | aurora/normalization/rolling.py:67-84 | absent iff not ready; otherwise non-negative, and zero exactly when the sample variance (ddof 1) is zero |
| Rolling.RollingStats.Clear | aurora/normalization/rolling.py:96-99 | both windows become empty |
| Rolling.ObserveTouchesOnlySupplied | aurora/normalization/rolling.py:147-149 | an observation extends the window of a tracked feature with a value, and leaves every other window unchanged |
| Rolling.ReplayValues | aurora/normalization/rolling.py:249-261 | replaying history keeps the set of tracked features |
| Rolling.ReplayDates | aurora/normalization/rolling.py:249-261 | replaying history keeps the set of tracked features' date windows |
| Rolling.DatedCount | aurora/normalization/rolling.py:249-261 | the number of dated records never exceeds the number of records |
| Rolling.ReplayIsNewest | aurora/normalization/rolling.py:249-261 | after replay a window is the newest `window` entries of its old contents followed by every value the records supply for it, in order; repeated dates are not merged |
| Rolling.ReplayLastSupplied | aurora/normalization/rolling.py:250-261 | a dated last record with a value for the feature pushes that value onto the window the earlier records produced |
| Rolling.ReplayLastSkipped | aurora/normalization/rolling.py:250-261 | an undated last record, or one without a value for the feature, changes nothing |
| Rolling.MultiFeatureRollingCalculator.constructor | aurora/normalization/rolling.py:110-133 | one empty window per distinct tracked name, with the given size and threshold |
| Rolling.MultiFeatureRollingCalculator.Windows | aurora/normalization/rolling.py:126-133 | one window per tracked feature, each within the window size |
| Rolling.MultiFeatureRollingCalculator.DateWindows | aurora/normalization/rolling.py:126-133 | one date window per tracked feature, each within the window size |
| Rolling.MultiFeatureRollingCalculator.AddTo | aurora/normalization/rolling.py:148-149 | pushes onto one feature's window and leaves the others unchanged |
| Rolling.MultiFeatureRollingCalculator.AddObservation | aurora/normalization/rolling.py:135-149 | each tracked feature with a value gets the value and date pushed; every other window is unchanged |
| Rolling.MultiFeatureRollingCalculator.ObserveKey | aurora/normalization/rolling.py:147-149 | one iteration of the observation loop: the features handled so far are pushed, the rest are untouched |
| Rolling.MultiFeatureRollingCalculator.GetStats | aurora/normalization/rolling.py:151-161 | present iff the feature is tracked, and then its own window |
| Rolling.MultiFeatureRollingCalculator.Filter | aurora/normalization/rolling.py:163-169 | keeps exactly the listed names whose readiness matches, in their listed order |
| Rolling.MultiFeatureRollingCalculator.GetReadyFeatures | aurora/normalization/rolling.py:163-165 | exactly the tracked features whose window is ready, in the calculator's name order |
| Rolling.MultiFeatureRollingCalculator.GetNotReadyFeatures | aurora/normalization/rolling.py:167-169 | exactly the tracked features whose window is not ready, in the calculator's name order |
| Rolling.ReadyPartition | aurora/normalization/rolling.py:163-169 | the ready and not-ready lists partition the tracked names |
| Rolling.MultiFeatureRollingCalculator.GetZscore | aurora/normalization/rolling.py:171-195 | absent iff untracked, not ready or zero deviation; otherwise z × std = value − mean, unclipped |
| Rolling.GetZscoreAgreesWithNormalize | aurora/normalization/rolling.py:171-195 | where the calculator gives a z-score it agrees with `zscore_normalize`, which instead returns 0 for a zero deviation |
| Rolling.MultiFeatureRollingCalculator.GetPercentile | aurora/normalization/rolling.py:197-215 | absent iff untracked or not ready; otherwise the strict percentile rank in the window |
| Rolling.MultiFeatureRollingCalculator.LoadFromHistory | aurora/normalization/rolling.py:234-264 | returns the number of dated records; the windows become the replay of the records in order |
| Pipeline.StatusOf | aurora/normalization/pipeline.py:178-183 | COMPLETE iff nothing is excluded, PARTIAL iff something is excluded and some z-score exists, INSUFFICIENT iff something is excluded and no z-score exists |
| Pipeline.StoredComposites | aurora/normalization/pipeline.py:121-123 | at most one composite per record, none when no record carries one |
| Pipeline.CollectComposites | aurora/normalization/pipeline.py:121-123 | the loop collects the stored composites in record order |
| Pipeline.Forwarded | aurora/normalization/pipeline.py:201-209 | forwards a value for exactly the four features that have one today |
| Pipeline.ForwardedChangesOnlyPresent | aurora/normalization/pipeline.py:201-211 | observing today's features pushes onto exactly the windows of features with a value |
| Pipeline.SparseScore | aurora/normalization/pipeline.py:243-252 | with a short history the score is 100 − 100 × sigmoid, strictly inside (0, 100) |
| Pipeline.ClampTail | aurora/normalization/pipeline.py:277-280 | a low-tail blend lands in [1, 25] and a high-tail one in [75, 99], and is the sigmoid value when that is already in range |
| Pipeline.InvertedScore | aurora/normalization/pipeline.py:243-288 | always in [0, 100]; 100 − percentile off the tails of a history of at least 10; a low-tail composite scores ≥ 75 and a high-tail one ≤ 25, within [75, 99] and [1, 25] when the history has spread |
| Pipeline.InvertedScoreAntitone | aurora/normalization/pipeline.py:255-288 | off the tails, a larger composite never gets a larger score |
| Pipeline.NormalizationPipeline.constructor | aurora/normalization/pipeline.py:36-62 | a fresh calculator with empty windows and an empty composite history |
| Pipeline.NormalizationPipeline.ZscoreOf | aurora/normalization/pipeline.py:163-175 | a scored feature's z-score is 0 for a zero deviation and otherwise the unclipped (value − mean)/std |
| Pipeline.NormalizationPipeline.Normalized | aurora/normalization/pipeline.py:149-175 | never more exclusions than names |
| Pipeline.NormalizationPipeline.NormalizedNext | aurora/normalization/pipeline.py:149-175 | each step adds its name to exactly one of the z-scores and the exclusions |
| Pipeline.NormalizationPipeline.NormalizedPartition | aurora/normalization/pipeline.py:149-175 | every name is either excluded (no value, or baseline not ready) or z-scored, never both |
| Pipeline.NormalizationPipeline.Normalize | aurora/normalization/pipeline.py:127-190 | the z-scores and exclusions of VPB, IPB, SBC, IPO in that order, with the status of those counts; reads the pipeline without changing it |
| Pipeline.NormalizationPipeline.NormalizeNames | aurora/normalization/pipeline.py:149-175 | the normalising loop over any list of names |
| Pipeline.NormalizationPipeline.NormalizeFeature | aurora/normalization/pipeline.py:152-175 | one feature: absent iff excluded, otherwise its z-score |
| Pipeline.NormalizationPipeline.AddObservation | aurora/normalization/pipeline.py:192-211 | today's non-missing feature values and date go into the calculator's windows |
| Pipeline.NormalizationPipeline.AddCompositeToHistory | aurora/normalization/pipeline.py:213-224 | the composite is appended and the history trimmed to the newest `window` entries, with the new composite last |
| Pipeline.NormalizationPipeline.LoadFromRecords | aurora/normalization/pipeline.py:108-125 | replays the records into the windows, returns the dated count, and appends every stored composite, dated or not, untrimmed |
| Pipeline.NormalizationPipeline.AppendStoredComposites | aurora/normalization/pipeline.py:121-123 | appends the stored composites without touching the windows |
| Pipeline.NormalizationPipeline.CalculatePercentile | aurora/normalization/pipeline.py:226-288 | the inverted score of the composite against the current history, in [0, 100] |
| Composite.Components | aurora/scoring/composite.py:45-57 | never more components than weights |
| Composite.CompositeFormula | aurora/scoring/composite.py:37-67 | the composite is 0.30·VPB + 0.25·IPB + 0.25·SBC + 0.20·IPO with a missing z counted as 0; it is never re-weighted |
| Composite.CompositeSample | tests/unit/test_scoring.py:12-19 | VPB 1.5, IPB 1.0, SBC −0.5 and IPO 0.8 give 0.735 |
| Composite.CompositeNotReweighted | tests/unit/test_scoring.py:21-29 | VPB 1.0 and IPB 0.5 alone give 0.30·1.0 + 0.25·0.5, not divided by the weight used |
| Composite.ContributionsSumToComposite | aurora/scoring/composite.py:45-67 | the composite is the sum of the components' contributions |
| Composite.ComponentFields | aurora/scoring/composite.py:45-57 | every component has a weighted name, its weight, its unclipped z and contribution weight × z |
| Composite.ComponentNames | aurora/scoring/composite.py:45-57 | the components are the present weighted names, in weight order |
| Composite.OnlyWeightedNamesCount | aurora/scoring/composite.py:45-57 | z-scores of names outside the weights change nothing |
| Composite.NothingPresent | aurora/scoring/composite.py:33-67 | with no weighted name present: no components and composite 0 |
| Composite.CalculateComposite | aurora/scoring/composite.py:19-75 | the loop yields the weighted sum and the components in weight order |
| Composite.CompositeOver | aurora/scoring/composite.py:45-67 | the accumulating loop over any weight list |
| Composite.AbsContributions | aurora/scoring/composite.py:89 | the magnitudes of the contributions, in order, never negative |
| Composite.SharesSum | aurora/scoring/composite.py:89-97 | the shares sum to 100 × total magnitude / the given total |
| Composite.LastNamedDistinct | aurora/scoring/composite.py:94-97 | with distinct names, each name reads its own component |
| Composite.ContributionShares | aurora/scoring/composite.py:77-98 | one share per component name |
| Composite.ContributionSharesAllZero | aurora/scoring/composite.py:91-92 | all shares are 0 when every contribution is 0 |
| Composite.ContributionShareAt | aurora/scoring/composite.py:94-97 | with distinct names, a component's share is 100 × its magnitude / the total magnitude |
| Composite.ContributionSharesSumTo100 | aurora/scoring/composite.py:89-97 | with distinct names and a nonzero total, the shares sum to 100 |
| Composite.SortedByAbsZ | aurora/scoring/composite.py:114-119 | sorting by descending magnitude of z orders the components that way |
| Composite.TopDriversRanked | aurora/scoring/composite.py:100-120 | min(n, count) of the components, in descending magnitude of z, none left out stronger than one picked |
| Composite.TopDriversStable | aurora/scoring/composite.py:114-119 | among equal magnitudes, the picked ones are the first in input order |
| Composite.ReadDivergence | aurora/scoring/composite.py:148-171 | strong narrow above 1, moderate narrow in (0.5, 1], strong broad below −1, moderate broad in [−1, −0.5), aligned otherwise |
| Composite.StrongReadingIffFlagged | aurora/scoring/composite.py:148-171 | the reading is strong exactly when the gap exceeds the warning level in size |
| Composite.AssessVpbIpbDivergence | aurora/scoring/composite.py:122-171 | absent iff VPB or IPB is missing; otherwise last VPB z − last IPB z with its reading |
| Composite.ScanVpbIpb | aurora/scoring/composite.py:136-141 | the scan keeps the last VPB and the last IPB z-score |
| Engine.Enriched | aurora/scoring/engine.py:131-151 | each component keeps name, weight, z and contribution; its raw value is today's feature value, or 0 when missing |
| Engine.EnrichComponents | aurora/scoring/engine.py:116-151 | the loop builds the enriched components in order |
| Engine.EnrichedContributions | aurora/scoring/engine.py:139-149 | enriching leaves the contributions unchanged |
| Engine.ClassifyBand | aurora/scoring/engine.py:186-196 | the band of the score, the same as `Band.from_score` |
| Engine.DivergenceSentence | aurora/scoring/engine.py:96-99 | a sentence iff both VPB and IPB exist and the gap exceeds 1 in size, and then the reading of the gap |
| Engine.DivergenceSentenceIsStrong | aurora/scoring/engine.py:96-99 | the appended sentence is always a strong reading |
| Engine.DayResultConsistent | aurora/scoring/engine.py:67-114 | the score is in [0, 100] with its own band; the raw composite is the weighted sum and the sum of contributions; components carry unclipped z and today's values; date, status and exclusions are passed through |
| Engine.AllExcludedDay | aurora/scoring/engine.py:67-114 | with every feature excluded there is still a result: composite 0, no components, INSUFFICIENT, no divergence sentence |
| Engine.DayDivergenceMatchesResult | aurora/scoring/engine.py:96-99 | the sentence is there iff the result's own VPB/IPB divergence exceeds 1 in size, and it is that divergence's strong reading |
| Engine.BMIEngine.constructor | aurora/scoring/engine.py:40-50 | uses the given pipeline, or a fresh one with window 63 and threshold 21 |
| Engine.BMIEngine.Score | aurora/scoring/engine.py:67-99 | steps 1–6 give the day's result from the baselines and the history as they stood before the day |
| Engine.BMIEngine.Calculate | aurora/scoring/engine.py:52-114 | the result is scored against the day-before state; then the day's values enter the windows and its raw composite enters the trimmed history |
| Engine.BMIEngine.Record | aurora/scoring/engine.py:101-103 | the day's values into the windows, the composite into the trimmed history |
| Engine.ExplainStep | aurora/scoring/engine.py:84-93 | the generator's lines when one is given, the default explanation otherwise |
| Engine.DivergenceStep | aurora/scoring/engine.py:95-99 | computes the divergence sentence |
| Vpb.Calculate | aurora/features/vpb.py:53-113 | missing volume, negative volume and zero total are the only failures, each with no value; otherwise value × total = advancing volume, in [0, 1] |
| Vpb.ValidExactly | aurora/features/vpb.py:69-102 | a value is computed exactly when both volumes are present, neither is negative and their sum is nonzero |
| Vpb.SharesComplement | aurora/features/vpb.py:104 | swapping the two volumes gives the complementary share |
| Vpb.Samples | tests/unit/test_vpb.py:11-53 | 3000/1000 → 0.75, no declining → 1, no advancing → 0, equal → 0.5 |
| Vpb.Interpret | aurora/features/vpb.py:115-134 | the five grades partition by > 0.7, > 0.55, > 0.45, > 0.3 |
| Vpb.InterpretMonotone | aurora/features/vpb.py:125-134 | a larger value never gets a weaker grade |
| Ipb.Calculate | aurora/features/ipb.py:58-118 | missing count, negative count and zero total are the only failures; otherwise value × total = advancing issues, in [0, 1] |
| Ipb.ValidExactly | aurora/features/ipb.py:74-107 | a value is computed exactly when both counts are present, neither is negative and their sum is nonzero |
| Ipb.Samples | tests/unit/test_ipb.py:11-44 | 300/200 → 0.6, all advancing → 1, all declining → 0, none → zero-total failure |
| Ipb.Interpret | aurora/features/ipb.py:120-139 | the five grades partition by > 0.7, > 0.55, > 0.45, > 0.3 |
| Ipb.InterpretMonotone | aurora/features/ipb.py:130-139 | a larger value never gets a weaker grade |
| Ipb.CalculateDivergence | aurora/features/ipb.py:141-173 | the divergence is vpb − ipb, read as mega-cap above 0.1, broad below −0.1, aligned otherwise |
| Ipb.DivergenceAntisymmetric | aurora/features/ipb.py:158-173 | swapping the inputs negates the divergence and mirrors its reading |
| Sbc.Calculate | aurora/features/sbc.py:52-119 | invalid iff both inputs are missing or both present with one outside [0, 100]; both in range give their mean / 100 in [0, 1]; a single input gives itself / 100 unchecked, and no value when it is 0 |
| Sbc.SingleInputUnchecked | aurora/features/sbc.py:78-96 | a lone 150 gives a valid 1.5; a lone 0 is valid with no value; two inputs with one out of range are invalid |
| Sbc.Interpret | aurora/features/sbc.py:121-142 | the five grades partition sbc × 100 by > 70, > 55, > 45, > 30 |
| Sbc.InterpretMonotone | aurora/features/sbc.py:131-142 | a larger value never gets a weaker grade |
| Sbc.AssessMaDivergence | aurora/features/sbc.py:144-176 | the divergence is pct50 − pct200, read above +15, below −15, neutral otherwise |
| Ipo.Uniform | aurora/features/ipo.py:109-111 | the default thresholds: one 2.0 per stock |
| Ipo.Spikes | aurora/features/ipo.py:133-149 | never more spikes than stocks |
| Ipo.CountSpikes | aurora/features/ipo.py:133-149 | the loop counts the stocks above both their threshold and the median |
| Ipo.Calculate | aurora/features/ipo.py:73-153 | missing or empty values fail; mismatched thresholds fail; otherwise value = the dual-filter spike count / n, in [0, 1], with the given median or the computed one |
| Ipo.CountAboveBothIsSpikes | aurora/features/ipo.py:184-190 | the simple count with one threshold is the dual filter with uniform thresholds |
| Ipo.CountAboveBothBelowCountGreater | aurora/features/ipo.py:184-190 | a spike is in particular a value above the median |
| Ipo.SimpleCount | aurora/features/ipo.py:184-205 | against the computed median at most half the stocks, rounded down, can spike |
| Ipo.FixedThresholdResult | aurora/features/ipo.py:192-205 | the simplified result: valid, value × n = count, in [0, 1] |
| Ipo.CalculateSimple | aurora/features/ipo.py:155-206 | missing or empty values fail; otherwise the dual filter with one threshold against the computed median, at most half spiking, value in [0, 1] |
| Ipo.SimpleAtMostHalf | aurora/features/ipo.py:184-205 | the simplified value never exceeds 0.5 |
| Ipo.DualFilterSamples | tests/unit/test_ipo.py:11-62 | the five-stock sample counts 2; failing either test blocks a spike |
| Ipo.CountAboveBothQuiet | tests/unit/test_ipo.py:133-144 | with every value at or below the threshold nothing spikes |
| Ipo.QuietDaySample | tests/unit/test_ipo.py:133-144 | a quiet day counts 0 with value 0 |
| Ipo.HighSpikeSample | tests/unit/test_ipo.py:111-131 | [6, 5.5, 5, 4.5, 4] against median 5 counts 2, value 0.4 |
| Ipo.Interpret | aurora/features/ipo.py:208-230 | the five grades partition ipo × 100 by > 20, > 10, > 5, > 2 |
| Ipo.InterpretMonotone | aurora/features/ipo.py:218-229 | a larger value never gets a weaker grade |
| Ipo.RelativeVolume | aurora/features/ipo.py:232-248 | absent iff the average is at most 0; otherwise ratio × average = current volume |
| Aggregator.Calculate | aurora/features/aggregator.py:33-105 | raw inputs copied unchanged; each metric is its calculator's value, IPO through the simplified count at 2.0 |
| Aggregator.MedianRelvol | aurora/features/aggregator.py:100 | the given median unless missing or 0, else IPO's computed median |
| Aggregator.VpbFeature | aurora/features/aggregator.py:62-101 | VPB is present exactly for present, non-negative volumes with a nonzero sum, and is then the advancing share of volume, in [0, 1] |
| Aggregator.IpbFeature | aurora/features/aggregator.py:66-102 | IPB is present exactly for present, non-negative counts with a nonzero sum, and is then the advancing share of issues, in [0, 1] |
| Aggregator.IpoFeature | aurora/features/aggregator.py:75-104 | IPO is present exactly for a non-empty list of relative volumes, and is then at most one half |
| Aggregator.FromRawData | aurora/features/aggregator.py:107-144 | each source's fields are copied when present; a missing source leaves its inputs and metrics empty |
| Aggregator.AbsentIsEmpty | aurora/features/aggregator.py:126-128 | a missing source behaves as a source with every field missing |
| Aggregator.GetValidFeatures | aurora/features/aggregator.py:146-162 | exactly the features with a value, each with that value |
| Aggregator.MissingAmong | aurora/features/aggregator.py:175-180 | exactly the listed names without a value |
| Aggregator.GetMissingFeatures | aurora/features/aggregator.py:164-180 | exactly the features without a value |
| Aggregator.ValidMissingPartition | aurora/features/aggregator.py:146-180 | valid and missing partition the four feature names |
| Aggregator.VpbIpbDivergence | aurora/features/aggregator.py:182-200 | absent iff VPB or IPB is missing; otherwise vpb − ipb with its reading |
| Explain.ArrowOf | aurora/explain/generator.py:125 | up iff z > 0, down iff z < 0, flat iff z = 0 |
| Explain.Bullets | aurora/explain/generator.py:118-126 | one bullet per selected driver, in order |
| Explain.DriverLinesRanked | aurora/explain/generator.py:93-128 | min(2, count) bullets, none for no components, the top drivers in descending magnitude of z |
| Explain.DivergenceNoteOf | aurora/explain/generator.py:169-202 | no note iff VPB or IPB is missing or the gap is below 1 in size; otherwise narrow leadership above +1 and broad weakness in every other case |
| Explain.FormatDivergence | aurora/explain/generator.py:169-202 | the scan-and-branch computes that note |
| Explain.NoteAtExactThreshold | aurora/explain/generator.py:196-202 | a gap of exactly ±1 gets the broad-weakness note, where the engine adds no sentence |
| Explain.Generate | aurora/explain/generator.py:43-91 | the lines: headline, drivers, note, warnings, each section only when it has content |
| Explain.AppendWarnings | aurora/explain/generator.py:83-89 | appends the warning section |
| Explain.SectionOf | aurora/explain/generator.py:64-89 | every line kind belongs to one of the four sections |
| Explain.OrderedAppend | aurora/explain/generator.py:64-89 | appending a later section keeps the sections in order |
| Explain.SectionKinds | aurora/explain/generator.py:64-89 | each section holds only its own kinds of line |
| Explain.GeneratedSectionsInOrder | aurora/explain/generator.py:64-89 | the sections appear in the fixed order headline, drivers, note, warnings |
| Explain.InGenerated | aurora/explain/generator.py:62-91 | a line is in the explanation iff it is in one of the four sections |
| Explain.GeneratedWarning | aurora/explain/generator.py:64-87 | the headline is first; a status warning appears iff the status is not COMPLETE |
| Explain.GeneratedExcluded | aurora/explain/generator.py:84-89 | an exclusion line appears iff something was excluded, and then it is last |
| Explain.GeneratedNote | aurora/explain/generator.py:76-80 | a divergence note appears iff `_format_divergence` produces one |
| Explain.FirstMaxIndex | aurora/explain/generator.py:247 | the first component of largest magnitude of z, as `max` picks it |
| Explain.FormatSummary | aurora/explain/generator.py:230-250 | score and band, led by the first component of largest magnitude of z, by none iff there are no components |
| Polygon.TallyOf | aurora/ingest/polygon.py:186-200 | at most one advance or decline per record |
| Polygon.TallyAppend | aurora/ingest/polygon.py:186-200 | tallying two batches and adding gives the tally of both |
| Polygon.TallySkips | aurora/ingest/polygon.py:186-200 | a record missing v, c or o, or unchanged, adds nothing |
| Polygon.CalculateBreadthFromGrouped | aurora/ingest/polygon.py:156-207 | all four fields absent without results; otherwise all four present, from the tally |
| Polygon.Closes | aurora/ingest/polygon.py:229-232 | the closes are a selection of the bars |
| Polygon.MaTallyOf | aurora/ingest/polygon.py:229-240 | above-average counts never exceed the qualifying tickers, which never exceed the tickers |
| Polygon.TallyMa | aurora/ingest/polygon.py:222-240 | the loop counts qualifying tickers (≥ 200 bars and closes) above their 50- and 200-close means |
| Polygon.CalculateMaBreadth | aurora/ingest/polygon.py:209-255 | both absent iff no ticker qualifies; otherwise 100 × above / qualifying for each average, in [0, 100] |
| Fmp.Direction | aurora/ingest/fmp.py:436-438 | change when present and nonzero, else changesPercentage, else 0 |
| Fmp.PositiveOrNone | aurora/ingest/fmp.py:405-406 | a total is reported only when positive |
| Fmp.PositiveCountOrNone | aurora/ingest/fmp.py:407-408 | a count is reported only when positive |
| Fmp.CalculateBreadthFromScreener | aurora/ingest/fmp.py:368-409 | counts are the gainers' and losers' lengths; volumes are the actives' volumes by sign of percentage change; each reported only when positive |
| Fmp.UniverseTally | aurora/ingest/fmp.py:436-449 | at most one advance or decline per stock |
| Fmp.CalculateBreadthFromUniverse | aurora/ingest/fmp.py:411-456 | the tally by direction, each field reported only when positive |
| Fmp.UniverseVolumeNeedsCount | aurora/ingest/fmp.py:444-449 | with non-negative volumes, a side without stocks has no volume |
| Fmp.UniverseVolumeImpliesCount | aurora/ingest/fmp.py:444-456 | with non-negative volumes, a reported volume comes with a reported count on its side |
| Fmp.UniverseSkipsFlat | aurora/ingest/fmp.py:439-442 | a stock with no direction changes nothing |
| UnusualWhales.ValidateEndpoint | aurora/ingest/unusual_whales.py:108-122 | refused exactly when the lower-cased endpoint starts with an excluded prefix |
| UnusualWhales.ExcludedByTwoPrefixes | aurora/ingest/unusual_whales.py:52-57 | refusal is exactly starting with `/api/darkpool` or `/darkpool`, in any case |
| UnusualWhales.AllowedWithoutD | aurora/ingest/unusual_whales.py:115-122 | an endpoint whose 2nd and 6th characters are not `d` in any case is allowed |
| UnusualWhales.TemplatesAllowed | aurora/ingest/unusual_whales.py:37-49 | every configured endpoint template is allowed |
| UnusualWhales.TickerEndpointsAllowed | aurora/ingest/unusual_whales.py:194 | the per-ticker endpoints are allowed whatever the ticker |
| UnusualWhales.DarkPoolRefused | aurora/ingest/unusual_whales.py:115-122 | anything under `/api/darkpool` or `/darkpool` is refused |
| UnusualWhales.RelVols | aurora/ingest/unusual_whales.py:366-373 | at most one relative volume per alert |
| UnusualWhales.RelVolsPositive | aurora/ingest/unusual_whales.py:366-373 | every kept relative volume is positive |
| UnusualWhales.CalculateRelativeVolumeSpikes | aurora/ingest/unusual_whales.py:341-392 | the relative volumes of alerts with positive volume and average, in order; median absent iff there are none, else their median |
| UnusualWhales.MedianPositive | aurora/ingest/unusual_whales.py:382-387 | the median is positive and at most some kept value |
| MaBreadth.UpDown | aurora/features/ma_breadth.py:307-313 | at most one riser or faller per record |
| MaBreadth.CalculateMaBreadthFast | aurora/features/ma_breadth.py:275-337 | invalid without results or without movers; otherwise both percentages are 100 × up / (up + down), in [0, 100], with up + down checked |
| MaBreadth.ProxyMatchesGroupedBreadth | aurora/features/ma_breadth.py:307-313 | on complete records the proxy counts the same risers and fallers as the grouped breadth |
| MaBreadth.ProxySbc | aurora/features/ma_breadth.py:327-337 | fed to SBC, the proxy's equal percentages give the share of risers |
| Builder.Kept | aurora/universe/builder.py:246-278 | a candidate is kept iff it passes; never longer than the input |
| Builder.KeptAppend | aurora/universe/builder.py:246-278 | filtering works batch by batch, keeping order |
| Builder.KeptIdempotent | aurora/universe/builder.py:246-278 | filtering twice is filtering once |
| Builder.KeptMeetsMinimums | aurora/universe/builder.py:249-268 | every kept candidate has a symbol and reaches the price, volume and cap minimums |
| Builder.MinimumsInclusive | aurora/universe/builder.py:254-276 | a candidate exactly at the default minimums passes; a free-float cap just below fails |
| Builder.ApplyFilters | aurora/universe/builder.py:236-285 | the loop keeps exactly the passing candidates, in order |
| Builder.Unique | aurora/universe/builder.py:293-300 | distinct, non-empty, upper-case symbols |
| Builder.UniqueMembers | aurora/universe/builder.py:293-300 | a symbol is among them iff some candidate's non-empty symbol upper-cases to it |
| Builder.Deduplicate | aurora/universe/builder.py:287-302 | the sorted unique upper-cased symbols |
| Builder.TruthyValues | aurora/universe/builder.py:174-175 | at most one value per candidate, all nonzero |
| Builder.MedianOrNone | aurora/universe/builder.py:177-178 | absent iff there are no values |
| Builder.BuildUniverse | aurora/universe/builder.py:134-199 | empty snapshot without candidates; otherwise the sorted unique tickers of the kept candidates, their count, the medians and the previous count |
| Builder.SnapshotTickers | aurora/universe/builder.py:170-191 | the tickers are distinct, upper-case, and exactly those carried by some passing candidate |
| Text.SortStrings | aurora/universe/builder.py:302 | a sorted permutation of its input |
| Sorting.MedianWithinRange | aurora/features/ipo.py:125-130 | the median lies between the smallest and largest value |
| Sorting.MedianCountAbove | aurora/features/ipo.py:125-130 | at most half the values, rounded down, lie above the median |

## Left out

- Network and async I/O: every fetching method of the Polygon, FMP and Unusual Whales clients, their health checks, rate limits and caches, and the async `calculate_ma_breadth`. They are network calls.
- The daily pipeline (`aurora/pipeline/daily.py`), configuration loading (`aurora/core/config.py`), the dashboard and the scripts. They orchestrate I/O around the model.
- Persistence: `NormalizationPipeline.load_history` and the builder's snapshot loading and saving. Persisted history is an input sequence, and the previous universe count is a parameter.
- Logging and `_check_distribution_collapse`, which only logs.
- Text formatting. Lines of the explanation are datatypes (`Types.Line`, `Readings.Grade`, `Readings.Tilt`); the template wording and float formatting are left out.
- `format_component_breakdown` and `_format_drivers`: pure formatting with no selection logic beyond what `DriverLines` models.
- Floating point: numbers are reals, with no IEEE rounding, NaN or infinity.
- `exp` and `sqrt` are parameters. `Numeric.Sigmoid` and `Numeric.Std` state only what follows from them being positive and non-negative.
- Python dictionaries with string keys are records of `Option` fields. A key present with the value None is read as absent. Python would instead raise a TypeError on such a value in the Polygon price comparisons. The FMP volume sums read `stock.get("volume", 0) or 0`, so there a None volume counts as 0, exactly as modelled.
- Case mapping is ASCII-only.
- The excluded endpoints are a `frozenset`; their order is irrelevant, and they are a sequence here. `ENDPOINTS` is a sequence of pairs rather than a dictionary.
- Methods.RollingMean and Methods.RollingStd: a window of 0 with empty values, where numpy returns NaN, is excluded by a precondition.
- Methods.RollingStd: whenever there are enough values but the tail `values[-window:]` holds at most `ddof` of them, numpy returns NaN, and the precondition excludes that case too. This means a window from 1 to `ddof`, or a window of 0 with at most `ddof` values.
- Pipeline.StoredComposites, Pipeline.CollectComposites, Pipeline.NormalizationPipeline.LoadFromRecords and Pipeline.NormalizationPipeline.AppendStoredComposites: a record whose `raw_composite` key holds None is excluded by a precondition. The source would append that None to the composite history, and the percentile step would then fail on it. Every writer of the history stores a float there, and the result record declares it a float.
- Methods.RollingStd: the result is stated only as non-negative, because its value depends on the `sqrt` parameter.
- Rolling.RollingStats.Std: stated as non-negative and zero exactly when the sample variance is zero, not as a number, for the same reason.
- Rolling.MultiFeatureRollingCalculator.constructor: a minimum of fewer than 2 observations is excluded, because numpy's sample deviation of one value is NaN.
- Rolling.RollingStats.constructor: the same minimum of 2 observations is required, for the same reason.
- Pipeline.InvertedScore: in the tails with zero spread the score is stated only as ≥ 75 or ≤ 25 (it is 100 − the raw percentile there), and the sigmoid value itself is not computed.
- Ipo.Calculate: the percentile threshold given to the constructor is never read by `calculate` or `calculate_simple`, so it is not modelled.
