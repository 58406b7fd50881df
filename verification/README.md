# MetaPAD pattern features, modelled in Dafny

MetaPAD mines frequent token patterns from a corpus and then classifies them
as good or bad phrases. The classifier's input comes from the `Features`
namespace of `cseg/src/classification/feature_extraction.h`. For every mined
pattern of more than one token it computes fourteen numbers:

- four statistical features: `f1`, `f2`, `f4` and `stat_outside`. They come
  from the best split of the pattern into two stored halves, and from how
  often the pattern's tokens occur in the sentences around each occurrence.
- four punctuation features: the share of occurrences inside quotes, with a
  dash, inside parentheses, and with every token capitalised.
- four stopword features: whether the first token is a stopword or
  digit-like, whether the last token is a stopword (digit-like does not
  count there), the share of stopword-or-digit-like tokens, and the
  average idf.
- two completeness features: the pattern's frequency compared with its
  truncations and with its extensions (one token on the right; as written,
  two on the left).

The model also covers `recognize`, which copies ground-truth labels onto the
pattern table. It covers `extract`, which normalises every probability,
computes every vector and names the features. It covers the reachable part
of `augment`, which returns right after `extract`.

How the model is laid out:

- `numbers.dfy` (`Numbers`). A `double` is `Finite(x)` or `NonFinite`.
  Dividing by zero gives `NonFinite`. `sqrt` and `log` are a parameter
  (`MathLib`).
- `outcomes.dfy` (`Outcomes`). Each `assert` of the source becomes an
  `Abort(reason)` result instead of a crash.
- `documents.dfy` (`Documents`). The corpus is given as data: the token
  stream, the sentence ends, the stopword and digit sets, the idf table and
  the per-position marks (capital, dash, quotes, parentheses).
- `pattern_table.dfy` (`PatternTable`). The pattern table: records,
  occurrence ends, the token-sequence lookup, and `getFrequency`.
- One module per feature group: `Statistical`, `OutsideContext`,
  `Punctuation`, `Stopwords`, `Completeness`.
- `Recognition` for `recognize`, and `Extraction` for the driver.

Two behaviours of the code look unintended. The model keeps both as
written:

- The left extension that `extractCompleteness` looks up starts at
  `st - 1` with `st = ed - L`. So it holds `L + 2` tokens: the pattern and
  the two tokens before it, not one. The contract of `LeftExtension` says so.
- `extract` names positions 4..7 as stopword features and 8..11 as
  punctuation features. It pushes the two groups in the other order. The
  lemma `NamesMislabelMiddleGroups` states the mismatch.

## Model

| member | source | states |
|---|---|---|
| Numbers.Ratio | cseg/src/classification/feature_extraction.h:154-157 | `(double)count / total` for a count out of a non-zero total (also the stopword share of line 116): the share that times `total` gives back `count`; it lies in [0, 1], is 1 exactly for the full count and 0 exactly for none |
| Numbers.CountTrue | cseg/src/classification/feature_extraction.h:110-115 | the number of true flags is the size of the set of positions holding true; it is the length exactly when all flags hold and 0 exactly when none does |
| Numbers.Average | cseg/src/classification/feature_extraction.h:237-245 | `sum / total / norm` with the division by `total` skipped for 0 occurrences: finite exactly when `norm` is not 0, and then multiplying back by `norm` and the occurrence count gives `sum` |
| PatternTable.GetFrequencyFindsRecord | cseg/src/classification/feature_extraction.h:60-65 | `getFrequency` answers with the frequency of the record holding the token sequence, and with 0 when no record holds it |
| PatternTable.PiecesStored | cseg/src/classification/feature_extraction.h:175-176 | in a table closed under dropping the first or the last token, every contiguous piece of a stored pattern is stored |
| Completeness.SubFrequency | cseg/src/classification/feature_extraction.h:73-84 | `subFreq` is the largest of the frequency and the two truncations' frequencies: at least each of them, and equal to one of them |
| Completeness.LeftExtension | cseg/src/classification/feature_extraction.h:87-93 | the left candidate of an occurrence ending at `ed` has `L + 2` tokens: the two stream tokens before the occurrence, then the occurrence itself |
| Completeness.RightExtension | cseg/src/classification/feature_extraction.h:95-99 | the right candidate is the pattern followed by exactly one token, the stream token right after the occurrence |
| Completeness.SuperFrequency | cseg/src/classification/feature_extraction.h:86-102 | `superFreq` bounds the frequency of every left and right candidate of every occurrence, and is 0 or the frequency of one of them |
| Completeness.NoLeftCandidateAtStreamStart | cseg/src/classification/feature_extraction.h:88-89 | an occurrence starting at stream position 0 or 1 never has a left candidate |
| Completeness.ExtractCompleteness | cseg/src/classification/feature_extraction.h:67-103 | two values; for a non-zero frequency `complete_sub` is `freq / subFreq`, lies in (0, 1] and is 1 exactly when neither truncation is more frequent, and `complete_super` is `superFreq / freq`; for frequency 0 `complete_super` is non-finite, and `complete_sub` is non-finite exactly when `subFreq` is also 0 (both truncations unstored or of frequency 0) |
| Stopwords.StopCount | cseg/src/classification/feature_extraction.h:110-115 | the stopword-or-digit count is the number of positions whose token is a stopword or digit-like; so it is at most the length, equals it exactly when every token qualifies, and is 0 exactly when none does |
| Stopwords.ExtractStopwords | cseg/src/classification/feature_extraction.h:106-118 | four finite values: the first-token flag is 1 exactly for a stopword or digit; the last-token flag is 1 exactly for a stopword; the third value is the `Ratio` of the stopword-or-digit count to the length; the last value times the length is the idf sum |
| Stopwords.AverageIdfBounded | cseg/src/classification/feature_extraction.h:117 | the average idf lies between the smallest and the largest idf of the tokens |
| Punctuation.CueCount | cseg/src/classification/feature_extraction.h:130-153 | the number of occurrences showing a cue is the number of occurrence indices whose occurrence shows it; so it is at most the number of occurrences, equals it exactly when all show the cue, and is 0 exactly when none does |
| Punctuation.ExtractPunctuation | cseg/src/classification/feature_extraction.h:121-158 | four zeros without occurrences; otherwise it fails exactly when some occurrence does not start with the first token, and value `q` is the `Ratio` of the count of occurrences showing cue `q` to the number of occurrences, a share in [0, 1] that is 1 exactly when all occurrences show the cue and 0 exactly when none does |
| Punctuation.PunctuationSucceeds | cseg/src/classification/feature_extraction.h:130-132 | occurrences that spell the pattern never fail the first-token assertion |
| Punctuation.PunctuationCheckSubsumed | cseg/src/classification/feature_extraction.h:132 | the first-token assertion of the punctuation group cannot fail once the outside-context computation (line 210) has passed |
| Statistical.SearchSplits | cseg/src/classification/feature_extraction.h:164-185 | the loop over split positions with a strict `current > best` returns the first position of maximal score, or -1 when no score beats the initial -1 |
| Statistical.BestSplit | cseg/src/classification/feature_extraction.h:164-185 | the split search fails exactly when some split half is not stored; otherwise it returns a split that satisfies `IsBestSplit` |
| Statistical.BestSplitUnique | cseg/src/classification/feature_extraction.h:181 | the strict comparison makes the chosen split unique |
| Statistical.SomeSplitChosen | cseg/src/classification/feature_extraction.h:164-185 | with non-negative probabilities, a pattern of two or more tokens always gets a real split, never the default ids |
| Statistical.ClosedTableStoresHalves | cseg/src/classification/feature_extraction.h:175-176 | a table closed under truncation satisfies both split-half assertions for every split of its patterns |
| Statistical.F1 | cseg/src/classification/feature_extraction.h:189 | `f1` is the probability divided by the product of the halves' probabilities, and non-finite exactly when that product is 0 |
| Statistical.ExtractStatistical | cseg/src/classification/feature_extraction.h:162-247 | it succeeds exactly when the split search and the outside-context computation both succeed; it yields four values, with `f1` as `F1` states and the last value as `OutsideFeature`; a failure reports `MissingSubPattern` from the split search, or else the outside-context violation |
| OutsideContext.ExpandLeft | cseg/src/classification/feature_extraction.h:212-216 | the leftward loop stops after crossing exactly two sentence ends, or at -1 when the stream start comes first; it stops on a sentence end and not earlier |
| OutsideContext.ExpandRight | cseg/src/classification/feature_extraction.h:217-221 | the rightward loop stops one past the second sentence end it crosses, or at the stream length; it does not stop earlier |
| OutsideContext.OccurrenceDiffs | cseg/src/classification/feature_extraction.h:208-235 | for one occurrence: it fails exactly when the first token differs, the window does not end on sentence ends, or some diff is negative; otherwise each diff is the token's count in the window minus its count in the pattern |
| OutsideContext.OccurrenceDiffsReports | cseg/src/classification/feature_extraction.h:209-233 | a failing occurrence reports the first check it fails, in the source's order: `OccurrenceMismatch` for the first token (line 210), then `WindowNotAligned` for the window ends (line 223), then `NegativeDiff` (line 233) |
| OutsideContext.OccurrenceDiffsCountOutside | cseg/src/classification/feature_extraction.h:208-235 | for an occurrence that spells the pattern in a stream bounded by sentence ends, nothing fails, and each diff is the token's count to the left of the occurrence plus its count to the right |
| OutsideContext.OutsideTotals | cseg/src/classification/feature_extraction.h:207-235 | the per-position totals exist exactly when every occurrence's diffs do, and they are non-negative |
| OutsideContext.OutsideTotalsReportsFirst | cseg/src/classification/feature_extraction.h:208-235 | when the totals fail, they report the violation of the first occurrence that fails: every earlier occurrence passes all three assertions |
| OutsideContext.OutsideTotalsSum | cseg/src/classification/feature_extraction.h:207-235 | when no assertion fails, `outside[j]` is the sum over the occurrences of position `j`'s diff in that occurrence's window |
| OutsideContext.OutsideFeature | cseg/src/classification/feature_extraction.h:237-246 | `stat_outside` fails exactly when the totals do, is finite exactly when the idf weights do not sum to 0, and is the `Average` of the idf-weighted totals over the occurrence count and the idf sum |
| OutsideContext.OutsideFeatureReportsFirst | cseg/src/classification/feature_extraction.h:208-235 | a failing `stat_outside` reports the violation of the first occurrence that fails an assertion, and every earlier occurrence passes |
| OutsideContext.OutsideFeatureNonNegative | cseg/src/classification/feature_extraction.h:237-246 | with non-negative idf weights, a finite `stat_outside` is non-negative |
| OutsideContext.OutsideNeverAborts | cseg/src/classification/feature_extraction.h:208-235 | when every occurrence spells the pattern and the stream starts and ends on a sentence end, none of the three assertions fails |
| Recognition.Recognize | cseg/src/classification/feature_extraction.h:249-261 | the result relabels every pattern named by some truth entry with the label of the last such entry, and leaves every other record unchanged; the count is the number of entries naming a stored pattern, at most the number of entries |
| Extraction.Normalize | cseg/src/classification/feature_extraction.h:265-268 | every probability becomes `freq * size / N`, and nothing else changes; the result is non-negative and the table invariants are kept |
| Extraction.PatternFeatures | cseg/src/classification/feature_extraction.h:278-287 | empty for patterns of one token; otherwise it succeeds exactly when the statistical group does, and has fourteen values |
| Extraction.PatternFeaturesLayout | cseg/src/classification/feature_extraction.h:282-285 | the vector is the statistical, punctuation, stopword and completeness groups, in that order |
| Extraction.ExtractUpTo | cseg/src/classification/feature_extraction.h:277-288 | the per-pattern loop succeeds exactly when every pattern does, and then holds every pattern's vector at its id; a failure reports the violation of the lowest failing id |
| Extraction.Extract | cseg/src/classification/feature_extraction.h:263-291 | it succeeds exactly when every pattern of the normalised table does; the result has the normalised table, the fourteen names, and one vector per id of the right length |
| Extraction.Augment | cseg/src/classification/feature_extraction.h:294-296 | `augment` returns exactly what `extract` returns, with no added names |
| Extraction.NamesMislabelMiddleGroups | cseg/src/classification/feature_extraction.h:270-285 | at positions 4..7 the vector holds the punctuation values under the stopword names, and at 8..11 the stopword values under the punctuation names |
| Extraction.PatternFeaturesSucceed | cseg/src/classification/feature_extraction.h:162-291 | a pattern's computation fails no assertion when the table is closed under truncation, its occurrences spell it, and the stream is bounded by sentence ends |
| Extraction.ExtractSucceeds | cseg/src/classification/feature_extraction.h:263-291 | when every pattern meets the same invariants, the whole extraction succeeds |

## Left out

- `Hist`: this helper struct is declared but never used by the feature routines.
- Parallelism: the OpenMP loop of `extract` is modelled as a sequential loop in id order. Each iteration writes only its own slot. A failed assertion is reported for the lowest failing id.
- The rest of `augment`: everything after its early `return` is dead code. It needs the segmentation model, which is not part of this model.
- The features `f3` and all-caps are computed but never emitted, so they are left out.
- The diagnostics on `stderr` in `extractStatistical` and `recognize` are left out.
- `Documents` and `FrequentPatternMining` are not part of this model. The token stream, sentence ends, stopwords, digits, idf, marks and the pattern table are inputs.
- Hashing: the table is looked up by the token sequence itself, so two patterns never collide.
- Floating point: rounding is not modelled. Infinities and NaN both become `NonFinite`. `sqrt` and `log` are parameters.
- Extraction.Normalize: requires a non-empty corpus. With `N = 0` the source divides by zero.
- Extraction.Extract: requires a non-empty corpus, for the same reason.
- Occurrence offsets outside the stream are a precondition (`WellFormed`). In the source they are undefined behaviour.
- `TOTAL_TOKENS_TYPE` is taken to be signed, so the leftward window loop can reach -1.
- Integer widths: positions, counts and ids are unbounded integers. When `TOTAL_TOKENS_TYPE` is wider than `int`, the `int j` loops of the dash and capital tests (lines 135 and 141) narrow the stream positions. When `PATTERN_ID_TYPE` is wider than `int`, storing split ids in `int AB, CD` (line 164) narrows them. Neither type's definition is part of this model, so positions and ids beyond the range of `int` are outside it.
- OutsideContext.OccurrenceDiffs: the diff at line 232 is stored in `TOKEN_ID_TYPE`, taken to be a signed type. A negative diff then fails the assertion at line 233, and the model aborts with `NegativeDiff`. If that type is unsigned, the assertion never fires and the diff wraps around; that variant is not modelled.
- OutsideContext.OutsideFeature: no lemma bounds `stat_outside` between the smallest and largest per-position diff averages. The contract gives its value through `Average` and `OutsideTotalsSum` instead.
- Statistical.BestSplit: checks that every split half is stored before scoring any split. The source checks split by split. A failure reports the same assertion either way.
