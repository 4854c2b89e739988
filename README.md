# SuperNutriScore in Dafny

A model of the two food-classification engines of SuperNutriScore, together
with the proofs of their properties.

- **Nutri-Score.** Seven nutrient threshold tables turn a product's nutrient values
  into negative and positive points. A protein exclusion rule applies. The score is
  negative minus positive points, and five score bands map the score to a grade A–E.
- **ELECTRE TRI.** This is a multi-criteria outranking classifier over eight criteria.
  - Five criteria are minimised: energy, saturated fat, sugars, sodium and additives.
  - Three are maximised: proteins, fibres and fruit/vegetable share.
  - Six boundary profiles b1 (worst) … b6 (best) are built from the quantiles of a
    product table. A weight dictionary and a majority threshold λ complete the
    configuration. The default weights are 0.15 for energy, sugars, sodium and
    fruit/vegetables and 0.10 for saturated fat, proteins, fibres and additives; the
    default λ is 0.6 (supernutriscore.py:146).
  - Binary partial concordances are summed into weighted global concordances
    C(a, b) and C(b, a). An item outranks a profile when C(a, b) ≥ λ. The pessimistic
    procedure scans b6 down to b1; the optimistic one scans b1 up to b6 and stops at
    the first profile that strictly dominates the item.
  - A batch driver labels every row of a table.
- **Confusion matrix.** This compares two label columns after the apostrophes are
  stripped from each label.

Modules:

| module | file | contents |
|---|---|---|
| `Wrappers` | `wrappers.dfy` | `Option` |
| `Labels` | `labels.dfy` | grades A–E, their letters `"A"` and the primed category names `"A'"` |
| `NutriScore` | `nutriscore.dfy` | tables, point lookup, score bands, scoring |
| `Criteria` | `criteria.dfy` | the eight criteria, their polarity, criterion vectors, weight dictionaries, default weights |
| `Electre` | `electre.dfy` | the classifier's concordance, outranking, both assignment procedures, the batch driver |
| `Profiles` | `profiles.dfy` | sorting, linear-interpolation quantiles, the profile builder |
| `Analysis` | `analysis.dfy` | label reading and the confusion matrix |
| `Pipeline` | `pipeline.dfy` | the analysis script's composition: profiles from data, weights and classifier |

How the source is represented:

- The classifier is configured once and never mutated, so it is a datatype, `Electre.ElectreTri`.
- Each of its loops is a method. The concordance loop and the two assignment loops
  are proved equal to recursive specification functions, and the lemmas are stated
  about those functions. The batch driver's loop (`Electre.ClassifyAll`) is specified
  row by row: each row's label is the primed result of `Electre.Assign` on that row.
- The confusion matrix, which the source fills cell by cell, is an `array2<int>`.
- Floating-point numbers are modelled as exact reals.
- A Python dictionary of weights is a sequence of (criterion, weight) entries kept in
  insertion order.

## Model

| member | source | states |
|---|---|---|
| `Labels.GradeAt` | supernutriscore.py:53-59 | the grade at position i of A..E has rank i |
| `Labels.GradeAtRank` | supernutriscore.py:53-59 | rank and position are inverse |
| `Labels.Letter` | supernutriscore.py:53-59 | definition: the label strings "A" .. "E"; characterised by `Labels.ParseLetterOfLetter` |
| `Labels.Primed` | supernutriscore.py:243-285 | definition: the category strings "A'" .. "E'", the letter followed by an apostrophe; characterised by `Analysis.StripQuotesPrimed` and `Analysis.ClassifyLabels` |
| `Labels.ParseLetter` | supernutriscore.py:324-333 | a letter that is read back as a grade is exactly that grade's letter |
| `Labels.ParseLetterOfLetter` | supernutriscore.py:324-333 | every grade's letter reads back as that grade |
| `NutriScore.Under` | supernutriscore.py:65 | definition: the value is strictly below a finite threshold, and always below the `inf` sentinel; characterised by `NutriScore.GetPoints` |
| `NutriScore.PointsFrom` | supernutriscore.py:62-67 | the result is the points of a row whose threshold exceeds the value while every earlier row's does not; when no row's threshold exceeds it, the last row's points |
| `NutriScore.GetPoints` | supernutriscore.py:62-67 | the scan returns the points of the first row whose threshold the value is strictly below, and the last row's points when the value is above every threshold |
| `NutriScore.PointsOrdered` | supernutriscore.py:15-50 | in a table with non-decreasing points, a later row never has fewer points |
| `NutriScore.PointsFromAbove` | supernutriscore.py:62-67 | a scan that passed row k yields at least row k's points |
| `NutriScore.PointsFromMonotone` | supernutriscore.py:62-67 | over a table with non-decreasing points, a larger value never yields fewer points |
| `NutriScore.GetPointsMonotone` | supernutriscore.py:62-67 | the lookup is monotone in the value |
| `NutriScore.GetPointsWithin` | supernutriscore.py:62-67 | a lookup returns a value within the bounds of the table's points |
| `NutriScore.PointsFromAt` | supernutriscore.py:62-67 | the scan stops at the first row whose threshold lies above the value |
| `NutriScore.GetPointsAt` | supernutriscore.py:62-67 | a value below row i's threshold and at or above every earlier one gets row i's points |
| `NutriScore.EnergyPoints` | supernutriscore.py:15-18 | energy points lie in 0..10 |
| `NutriScore.SaturatedFatPoints` | supernutriscore.py:20-23 | saturated-fat points lie in 0..10 |
| `NutriScore.SugarsPoints` | supernutriscore.py:25-29 | sugar points lie in 0..15 |
| `NutriScore.SodiumPoints` | supernutriscore.py:31-36 | sodium points lie in 0..20 |
| `NutriScore.ProteinsPoints` | supernutriscore.py:39-42 | protein points lie in 0..7 |
| `NutriScore.FibresPoints` | supernutriscore.py:44-46 | fibre points lie in 0..5 |
| `NutriScore.FruitsVegetablesPoints` | supernutriscore.py:48-50 | fruit/vegetable points lie in 0..5 |
| `NutriScore.EnergyFatTablesNonDecreasing` | supernutriscore.py:15-23 | the energy and saturated-fat tables award non-decreasing points |
| `NutriScore.SugarsSodiumTablesNonDecreasing` | supernutriscore.py:25-36 | the sugars and sodium tables award non-decreasing points |
| `NutriScore.PositiveTablesNonDecreasing` | supernutriscore.py:39-50 | the protein, fibre and fruit/vegetable tables award non-decreasing points |
| `NutriScore.ComponentPointsMonotone` | supernutriscore.py:15-67 | each of the seven component scores is monotone in its nutrient value |
| `NutriScore.LookupExamples` | supernutriscore.py:15-18 | 180 kJ scores 0 energy points; 80 % fruit/vegetables scores 5 |
| `NutriScore.SugarsLookupExamples` | supernutriscore.py:25-29 | 10.6 g and 10.0 g of sugar both score 3; a value equal to a threshold belongs to the band above |
| `NutriScore.InBand` | supernutriscore.py:112 | definition: min ≤ score ≤ max, with −∞ and +∞ as open ends (also the test at :137); characterised by `NutriScore.ClassesCoverEveryScore` and `NutriScore.ClassesOverlapOnlyAtZero` |
| `NutriScore.LabelFrom` | supernutriscore.py:110-114 | definition: the scan of the bands from band k on, E when none contains the score; characterised by `NutriScore.LabelFromScoreRanges` |
| `NutriScore.LabelFromScore` | supernutriscore.py:134-139 | definition: the grade of the first band containing the score, E when there is none; characterised by `NutriScore.LabelFromScoreRanges` |
| `NutriScore.LabelFromScoreRanges` | supernutriscore.py:134-139 | the grade is A iff score ≤ 0, B iff 1..2, C iff 3..10, D iff 11..18, E iff ≥ 19 |
| `NutriScore.ClassesCoverEveryScore` | supernutriscore.py:53-59 | every integer score falls in some band |
| `NutriScore.ClassesOverlapOnlyAtZero` | supernutriscore.py:53-59 | two distinct bands share only score 0, which goes to A because A is listed first |
| `NutriScore.ProteinsExcluded` | supernutriscore.py:97-99 | definition: negative points ≥ 11 and fruit/vegetables < 80 %; its effect is characterised by `NutriScore.ProteinRule` |
| `NutriScore.Evaluate` | supernutriscore.py:70-131 | each detail is its table lookup; negative and positive are the sums; proteins count iff negative < 11 or fruit/vegetables ≥ 80 %; score = negative − positive; grade = band of the score |
| `NutriScore.ScoreBounds` | supernutriscore.py:85-107 | negative points lie in 0..55, positive in 0..17, and the score in −17..55 |
| `NutriScore.ProteinRule` | supernutriscore.py:97-104 | when the exclusion rule applies, changing the protein value changes nothing in the result; otherwise it moves the score by exactly the difference in protein points |
| `NutriScore.EvaluateExampleB` | supernutriscore.py:70-131 | a worked product: 8 negative points, 6 positive points and score 2, which gives grade B |
| `NutriScore.EvaluateExampleExcluded` | supernutriscore.py:99-104 | a product with 20 negative points gets no protein points and is graded E |
| `NutriScore.ExampleBNegativePoints` | supernutriscore.py:15-36 | the looked-up negative components of the worked product |
| `NutriScore.ExampleBPositivePoints` | supernutriscore.py:39-50 | the looked-up positive components of the worked product |
| `NutriScore.ExampleExcludedNegativePoints` | supernutriscore.py:15-36 | the looked-up negative components of the excluded product |
| `NutriScore.ExampleExcludedPositivePoints` | supernutriscore.py:39-50 | the looked-up positive components of the excluded product |
| `Criteria.Maximised` | supernutriscore.py:158-160 | definition: proteins, fibres and fruit/vegetables are maximised, the other five criteria minimised (the same lists at :400-402); characterised by `Electre.PartialConcordance` |
| `Criteria.AtLeastAsGood` | supernutriscore.py:173-180 | definition: ≥ on a maximised criterion, ≤ on a minimised one; characterised by `Electre.PartialConcordance` and `Electre.PartialConcordanceTies` |
| `Criteria.WeightSum` | supernutriscore.py:191 | definition: the sum of the dictionary's weights; characterised by `Criteria.DefaultWeights`, `Electre.SumsBounded` and `Electre.ScaledWeightSum` |
| `Criteria.AllCriteriaListsEachOnce` | supernutriscore.py:391-392 | the criterion list names each of the eight criteria exactly once |
| `Criteria.Set` | supernutriscore.py:394-423 | writing one criterion of a vector changes it to the new value and leaves every other criterion unchanged |
| `Criteria.VectorExtensionality` | supernutriscore.py:394-423 | two vectors that agree on every criterion are equal |
| `Criteria.Keys` | supernutriscore.py:188-202 | the key sequence lists the entries' criteria in order |
| `Criteria.DefaultWeights` | supernutriscore.py:428-446 | the default weights have exactly the eight criteria as keys, in order; they are non-negative and sum to 1 |
| `Electre.PartialConcordance` | supernutriscore.py:162-182 | c(a, b) is 1 iff a is at least as good as b in the criterion's direction; c(b, a) likewise |
| `Electre.PartialConcordanceTies` | supernutriscore.py:162-182 | at least one of c(a, b) and c(b, a) is 1; both are 1 iff the values are equal |
| `Electre.Share` | supernutriscore.py:197-199 | definition: an entry's weight when the first vector is at least as good on its criterion, else 0; characterised by `Electre.ShareIsWeightedPartial` |
| `Electre.ForSum` | supernutriscore.py:193-198 | definition: the running sum of weight × c(a, b); characterised by `Electre.GlobalConcordance`, `Electre.SumsBounded` and `Electre.ForSumIsConcordingWeight` |
| `Electre.AgainstSum` | supernutriscore.py:193-199 | definition: the running sum of weight × c(b, a); characterised by `Electre.GlobalConcordance`, `Electre.SumsBounded` and `Electre.SwappedSums` |
| `Electre.ShareIsWeightedPartial` | supernutriscore.py:188-202 | an entry's contribution is its weight times its partial concordance |
| `Electre.Concordance` | supernutriscore.py:184-204 | definition: each concording sum divided by the weight sum; computed by `Electre.GlobalConcordance`, characterised by `Electre.ConcordanceBounds`, `Electre.SelfConcordance` and `Electre.ConcordanceScaleInvariant` |
| `Electre.GlobalConcordance` | supernutriscore.py:184-204 | the loop returns the concording weights divided by the weight sum, in both directions |
| `Electre.SumsBounded` | supernutriscore.py:184-204 | with non-negative weights each concording sum lies between 0 and the total, and the two sums together reach the total |
| `Electre.ConcordanceBounds` | supernutriscore.py:184-204 | with non-negative weights of positive sum, C(a, b) and C(b, a) lie in [0, 1] and their sum is at least 1 |
| `Electre.SelfSums` | supernutriscore.py:184-204 | an item compared with itself concords on every criterion |
| `Electre.SelfConcordance` | supernutriscore.py:184-204 | C(a, a) = 1 on both sides |
| `Electre.SwappedSums` | supernutriscore.py:184-204 | C(b, a) on (a, b) equals C(a, b) on (b, a) |
| `Electre.Scale` | supernutriscore.py:188-202 | multiplying every weight by a factor keeps the number of entries |
| `Electre.ScaleLast` | supernutriscore.py:188-202 | scaling commutes with removing the last entry |
| `Electre.ScaledWeightSum` | supernutriscore.py:188-202 | the scaled weights sum to the factor times the sum |
| `Electre.ForSumIsConcordingWeight` | supernutriscore.py:188-202 | the concording sum is the total weight of the entries on which a is at least as good |
| `Electre.ScaleAppend` | supernutriscore.py:188-202 | scaling distributes over appending an entry |
| `Electre.ConcordingScaled` | supernutriscore.py:188-202 | selecting the concording entries commutes with scaling |
| `Electre.ScaledForSum` | supernutriscore.py:188-202 | the concording sum of scaled weights is the factor times the concording sum |
| `Electre.ScaledAgainstSum` | supernutriscore.py:188-202 | the same for the opposite direction |
| `Electre.ConcordanceFromSums` | supernutriscore.py:201-204 | the concordances are the concording sums divided by the total |
| `Electre.ConcordanceScaleInvariant` | supernutriscore.py:184-204 | multiplying all weights by a positive factor changes neither concordance, so normalising the weights beforehand has no effect |
| `Electre.SumsMonotoneInProfile` | supernutriscore.py:162-204 | against a profile that is better on every criterion, the item concords on no more weight and the profile on no less |
| `Electre.Outranks` | supernutriscore.py:215 | definition: a S b iff C(a, b) ≥ λ; computed by `Electre.Outranking` |
| `Electre.OutrankedBy` | supernutriscore.py:216 | definition: b S a iff C(b, a) ≥ λ; computed by `Electre.Outranking` |
| `Electre.OutranksProfile` | supernutriscore.py:235-240 | definition: the item outranks profile b_i; characterised by `Electre.OutranksLowerProfiles` |
| `Electre.StrictlyBelowProfile` | supernutriscore.py:266-271 | definition: b_i outranks the item and the item does not outrank b_i; characterised by `Electre.OptimisticIsLowestStrictlyAbove` |
| `Electre.Outranking` | supernutriscore.py:206-218 | aSb iff C(a, b) ≥ λ and bSa iff C(b, a) ≥ λ |
| `Electre.SelfOutranking` | supernutriscore.py:206-218 | with λ ≤ 1 the outranking relation is reflexive |
| `Electre.OutranksLowerProfiles` | supernutriscore.py:220-254 | under improving profiles, an item that outranks b_i also outranks every lower profile |
| `Electre.HigherProfilesOutrank` | supernutriscore.py:256-285 | under improving profiles, when profile b_i outranks the item, every higher profile outranks it too |
| `Electre.PessimisticCategory` | supernutriscore.py:241-251 | definition: b6→A, b5→B, b4→C, b3→D, b2/b1→E |
| `Electre.PessimisticFrom` | supernutriscore.py:233-254 | definition: the scan from b_i down, E when no profile is outranked; characterised by `Electre.PessimisticFromHighest` |
| `Electre.Pessimistic` | supernutriscore.py:220-254 | definition: the scan from b6; computed by `Electre.AssignPessimistic`, characterised by `Electre.PessimisticIsHighestOutranked` |
| `Electre.OptimisticCategory` | supernutriscore.py:272-282 | definition: b1→E, b2→D, b3→C, b4→B, b5/b6→A |
| `Electre.OptimisticFrom` | supernutriscore.py:264-285 | definition: the scan from b_i up, A when no profile is strictly above the item; characterised by `Electre.OptimisticFromLowest` |
| `Electre.Optimistic` | supernutriscore.py:256-285 | definition: the scan from b1; computed by `Electre.AssignOptimistic`, characterised by `Electre.OptimisticIsLowestStrictlyAbove` |
| `Electre.AssignPessimistic` | supernutriscore.py:220-254 | the loop from b6 down returns the pessimistic category |
| `Electre.AssignOptimistic` | supernutriscore.py:256-285 | the loop from b1 up returns the optimistic category |
| `Electre.PessimisticFromHighest` | supernutriscore.py:233-254 | the scan from b_i down yields the category of the highest outranked profile at or below b_i, and E when there is none |
| `Electre.PessimisticIsHighestOutranked` | supernutriscore.py:220-254 | the pessimistic category is that of the highest outranked profile (b6→A, b5→B, b4→C, b3→D, b2/b1→E), E when none is outranked |
| `Electre.OptimisticFromLowest` | supernutriscore.py:264-285 | the scan from b_i up yields the category of the first profile strictly above the item, and A when there is none |
| `Electre.OptimisticIsLowestStrictlyAbove` | supernutriscore.py:256-285 | the optimistic category is that of the lowest profile that outranks the item without being outranked by it (b1→E, b2→D, b3→C, b4→B, b5/b6→A), A when there is none |
| `Electre.PessimisticFromBelow` | supernutriscore.py:233-254 | the scan from b_i down yields no better than the category of b_{i+1} |
| `Electre.PessimisticFromThreshold` | supernutriscore.py:215-254 | a lower λ gives a pessimistic scan result that is never worse |
| `Electre.PessimisticThresholdMonotone` | supernutriscore.py:215-254 | raising λ never improves the pessimistic category |
| `Electre.MixedConcordance` | supernutriscore.py:184-204 | with weights 0.4 on proteins and 0.6 on sugars, an item with more of both has C(a, b) = 0.4 and C(b, a) = 0.6 |
| `Electre.OptimisticThresholdNotMonotone` | supernutriscore.py:256-285 | with six equal profiles and those weights, the optimistic category is E at λ = 0.5 and A at λ = 0.7: raising λ can improve it |
| `Electre.OptimisticFromNoneAbove` | supernutriscore.py:264-285 | a scan that meets no profile strictly above the item ends at A |
| `Electre.OptimisticFromAbove` | supernutriscore.py:264-285 | the scan from b_i up yields no worse than the category of b_i |
| `Electre.OptimisticSkipsOutranked` | supernutriscore.py:264-285 | the optimistic scan passes over profiles the item outranks |
| `Electre.PessimisticOutrankedPrefix` | supernutriscore.py:220-254 | under improving profiles, the outranked profiles are exactly b1..b_p (none above b_p), and the pessimistic category is read from p (E when p = 0) |
| `Electre.PessimisticNoBetterThanOptimistic` | supernutriscore.py:220-285 | with non-negative weights of positive sum and improving profiles, the pessimistic category is never better than the optimistic one |
| `Electre.Names` | supernutriscore.py:308-311 | the column names, in column order |
| `Electre.Lookup` | supernutriscore.py:308-311 | a name reads no column iff it names none |
| `Electre.LookupReplaced` | supernutriscore.py:308-311 | replacing the column of an existing name makes the name read the new values and leaves every other name as it was |
| `Electre.LookupUniform` | supernutriscore.py:308-311 | when every column of a name holds the same values, looking that name up returns them |
| `Electre.LookupOtherNames` | supernutriscore.py:308-311 | tables with the same names that differ only on one name agree on all others |
| `Electre.LookupAppended` | supernutriscore.py:308-311 | a column appended under a new name reads its values, other names read as before |
| `Electre.WithColumn` | supernutriscore.py:311 | definition: replace the columns of an existing name where they stand, otherwise append; characterised by `Electre.WithColumnLookup` and `Electre.WithColumnNames` |
| `Electre.WithColumnLookup` | supernutriscore.py:308-311 | after the assignment the column name reads the new values and every other name is unchanged |
| `Electre.WithColumnNames` | supernutriscore.py:308-311 | the assignment keeps the column order and appends the name only when it is new |
| `Electre.WithColumnKeepsOthers` | supernutriscore.py:309-311 | every column of another name stays at its position with its values |
| `Electre.Capitalize` | supernutriscore.py:310 | same length; first character upper-cased; the rest lower-cased |
| `Electre.ColumnName` | supernutriscore.py:310 | definition: "Classe_ELECTRE_" followed by the capitalised procedure name; characterised by `Electre.ColumnNames` |
| `Electre.Assign` | supernutriscore.py:302-305 | definition: "pessimiste" selects the pessimistic procedure, any other name the optimistic one; used by `Electre.ClassifyAll` |
| `Electre.ColumnNames` | supernutriscore.py:310 | the two procedures write to "Classe_ELECTRE_Pessimiste" and "Classe_ELECTRE_Optimiste" |
| `Electre.ClassifyAll` | supernutriscore.py:287-313 | rows unchanged; the category column holds, row by row, the primed category of the chosen procedure ("pessimiste", otherwise optimistic); every other name reads as before, and every column of another name stays at its position unchanged; column order is kept |
| `Electre.ClassifyAllByDefault` | supernutriscore.py:287-313 | with the default procedure "pessimiste", every row gets its pessimistic category in column "Classe_ELECTRE_Pessimiste"; rows and every other column unchanged |
| `Profiles.LowerBoundByMultiset` | supernutriscore.py:409-423 | a lower bound of all elements carries over to a permutation |
| `Profiles.Insert` | supernutriscore.py:409-423 | inserting into a sorted sequence keeps it sorted and adds exactly the element |
| `Profiles.InsertBehind` | supernutriscore.py:409-423 | an insertion behind the head keeps the head first and is still a permutation |
| `Profiles.Sort` | supernutriscore.py:409-423 | the result is sorted and a permutation of the input |
| `Profiles.Minimum` | supernutriscore.py:410-423 | the minimum is an element of the column and is at most every element |
| `Profiles.Maximum` | supernutriscore.py:415-417 | the maximum is an element of the column and is at least every element |
| `Profiles.Lerp` | supernutriscore.py:411-421 | definition: a + t·(b − a), the linear interpolation step of pandas' quantile; characterised by `Profiles.LerpBetween` and `Profiles.LerpMonotone` |
| `Profiles.LerpBetween` | supernutriscore.py:411-421 | interpolating between two ordered values stays between them |
| `Profiles.LerpMonotone` | supernutriscore.py:411-421 | interpolation is monotone in the fraction |
| `Profiles.FloorBounds` | supernutriscore.py:411-421 | the floored position lies within one position |
| `Profiles.QuantilePosition` | supernutriscore.py:411-421 | the quantile position (n − 1)·q lies in [0, n − 1] |
| `Profiles.Position` | supernutriscore.py:411-421 | the position is a valid fractional index |
| `Profiles.PositionMonotone` | supernutriscore.py:411-421 | the position is monotone in q |
| `Profiles.Interpolate` | supernutriscore.py:411-422 | definition: linear interpolation between the two order statistics around a fractional position; characterised by `Profiles.InterpolateBetween` and `Profiles.InterpolateMonotone` |
| `Profiles.InterpolateBetween` | supernutriscore.py:411-421 | the interpolated value lies between its two neighbouring order statistics |
| `Profiles.InterpolateMonotone` | supernutriscore.py:411-421 | on sorted data the interpolated value is monotone in the position |
| `Profiles.Quantile` | supernutriscore.py:411-422 | definition: the interpolated value at position (n − 1)·q of the sorted column; characterised by `Profiles.QuantileMonotone`, `Profiles.QuantileWithinRange` and `Profiles.QuantileExample` |
| `Profiles.QuantileMonotone` | supernutriscore.py:411-421 | the q-quantile is monotone in q |
| `Profiles.QuantileWithinRange` | supernutriscore.py:411-421 | every quantile lies between the minimum and the maximum |
| `Profiles.QuantileExample` | supernutriscore.py:411-421 | the 0.2 and 0.8 quantiles of 1..5 are 1.8 and 4.2; a single value is its own quantile |
| `Profiles.SortedPermutationEnds` | supernutriscore.py:409-423 | a sorted permutation starts with the minimum and ends with the maximum |
| `Profiles.SortEnds` | supernutriscore.py:409-423 | the sorted column starts with its minimum and ends with its maximum |
| `Profiles.ColumnOf` | supernutriscore.py:409-423 | the column holds, row by row, that criterion's value |
| `Profiles.Summarise` | supernutriscore.py:410-423 | definition: minimum, 20/40/60/80 % quantiles and maximum of a column; characterised by `Profiles.SummaryOrdered` |
| `Profiles.SummaryOrdered` | supernutriscore.py:409-423 | minimum ≤ q20 ≤ q40 ≤ q60 ≤ q80 ≤ maximum, all taken from the column |
| `Profiles.Pick` | supernutriscore.py:408-423 | definition: the statistic each profile takes, by criterion direction; characterised by `Profiles.PickValues` and `Profiles.PickChain` |
| `Profiles.ProfileValue` | supernutriscore.py:407-423 | definition: the picked statistic of a criterion's column for profile b_{i+1}; characterised by `Profiles.ProfileRow` |
| `Profiles.PickChain` | supernutriscore.py:408-423 | with non-negative statistics the profile values b1..b6 improve in the criterion's direction |
| `Profiles.ProfileRow` | supernutriscore.py:394-423 | profile b_{i+1} holds, for every criterion, that criterion's profile value |
| `Profiles.ProfilesOf` | supernutriscore.py:394-425 | six profiles, each holding the profile value of every criterion |
| `Profiles.PickValues` | supernutriscore.py:408-423 | minimised: b1 = 1.5·max, b2..b5 = q80, q60, q40, q20, b6 = 0.1·min; maximised: b1 = 0.1·min, b2..b5 = q20..q80, b6 = 1.5·max |
| `Profiles.FillCriterion` | supernutriscore.py:408-423 | filling one criterion sets its value in each of the six profiles and leaves the other criteria alone |
| `Profiles.FillStep` | supernutriscore.py:407-423 | after the criteria done so far plus one more, all of them hold their profile values |
| `Profiles.CreateProfiles` | supernutriscore.py:381-425 | no profiles iff the table is empty; otherwise exactly the profile table above |
| `Profiles.ColumnSummaryOrdered` | supernutriscore.py:408-423 | on non-negative data, a column's statistics are non-negative and ordered |
| `Profiles.ProfilesOfImprove` | supernutriscore.py:381-425 | on non-negative data, each profile is at least as good as the one below on every criterion |
| `Profiles.PickEncloses` | supernutriscore.py:408-423 | every observed value lies between b1 and b6 in the criterion's direction, strictly so when the minimum is positive |
| `Profiles.ObservationsBetweenExtremes` | supernutriscore.py:381-425 | every product's value lies between its criterion's b1 and b6, strictly so when the column's minimum is positive |
| `Analysis.StripQuotes` | supernutriscore.py:329-330 | the result has no apostrophe, is no longer than the input, and equals the input when it had none |
| `Analysis.StripQuotesAppend` | supernutriscore.py:329-330 | stripping distributes over concatenation |
| `Analysis.StripQuotesIdempotent` | supernutriscore.py:329-330 | stripping twice is stripping once |
| `Analysis.StripQuotesPrimed` | supernutriscore.py:329-330 | a primed category and a bare letter both strip to the letter |
| `Analysis.Classify` | supernutriscore.py:329-332 | a label is counted as grade g only when it strips to g's letter |
| `Analysis.ClassifyLabels` | supernutriscore.py:329-332 | "A" and "A'" (and so on for each grade) both read as their grade |
| `Analysis.ClassifyExamples` | supernutriscore.py:329-332 | "'A''" reads as A; "F", "" and "AB" are not counted |
| `Analysis.Readings` | supernutriscore.py:328-332 | each label is read independently, in order |
| `Analysis.PairsConsidered` | supernutriscore.py:328 | the number of compared pairs is the length of the shorter column |
| `Analysis.CellCount` | supernutriscore.py:328-333 | a cell counts no more than the pairs compared |
| `Analysis.ValidCount` | supernutriscore.py:332 | the pairs with two readable labels are no more than the pairs compared |
| `Analysis.RowTotalIsRowValid` | supernutriscore.py:325-333 | a row of the matrix sums to the pairs whose true grade is that row's and whose predicted label is readable |
| `Analysis.RowsCoverValid` | supernutriscore.py:325-333 | the row sums together count every pair with two readable labels |
| `Analysis.TotalIsValidCount` | supernutriscore.py:325-333 | all 25 cells sum to the number of pairs with two readable labels |
| `Analysis.AgreementIsDiagonal` | supernutriscore.py:325-333 | when the two labels agree on every pair where both are readable, all off-diagonal cells are 0; pairs with an unreadable label are unconstrained |
| `Analysis.Letters` | supernutriscore.py:53-59 | the Nutri-Score letter column, grade by grade |
| `Analysis.Categories` | supernutriscore.py:243-285 | the ELECTRE category column, grade by grade |
| `Analysis.ReadingsOfRendered` | supernutriscore.py:329-332 | a letter column and a primed category column of the same grades read identically |
| `Analysis.RenderedPairsAllCounted` | supernutriscore.py:332 | when every label is readable, every compared pair is counted |
| `Analysis.RenderedMatrixTotal` | supernutriscore.py:320-336 | comparing a Nutri-Score column with an ELECTRE column counts every compared pair exactly once |
| `Analysis.ConfusionMatrix` | supernutriscore.py:320-336 | a fresh 5×5 matrix whose cell (g, h) counts the compared pairs read as true g and predicted h |
| `Pipeline.Configure` | analyser_donnees.py:67-84 | definition: the classifier over the profiles built from the table, with the given weights and λ; characterised by `Pipeline.PipelinePessimisticNoBetter` |
| `Pipeline.PipelinePessimisticNoBetter` | analyser_donnees.py:67-106 | for a non-empty table of non-negative data, any non-negative weights of positive sum and any λ, the configured classifier is well formed and its pessimistic category is never better than its optimistic one |
| `Pipeline.DefaultPipelinePessimisticNoBetter` | analyser_donnees.py:67-106 | the same with the default weights |
| `Pipeline.AnalysisRunPessimisticNoBetter` | analyser_donnees.py:76-107 | at the script's setting (default weights, default λ = 0.6) the classifier is well formed and its pessimistic category is never better than its optimistic one |

## Left out

- Reading and writing files, pandas data frames and printing are left out. Tables are
  sequences of criterion vectors plus named text columns.
- The Streamlit interface and the analysis script's plotting and reporting are left out.
  Only their configuration of the classifier is modelled (`Pipeline.Configure`).
- The interface's weight normalisation (`interface_streamlit.py:336-339`) is not
  modelled as an operation. `Electre.ConcordanceScaleInvariant` proves that dividing
  every weight by a positive sum leaves every concordance, and so every category,
  unchanged.
- `calculer_metriques` and `statistiques_descriptives` are left out. They are reporting
  and floating-point statistics beyond the core.
- Floating point is modelled as exact reals: no rounding, no NaN, no infinities. In the
  source, a NaN nutrient value fails every `<` test and gets the last row's points; the
  model has no such value. Rounding matters most at a tie C = λ. With the default
  weights an item can concord on exactly 0.6 of the weight: four 0.15 entries, or two
  0.15 and three 0.10 entries. At λ = 0.6 the model then decides that the item
  outranks the profile. The source's accumulated floating-point sum may land on either
  side of 0.6.
- A weight dictionary's keys are restricted to the eight criteria. In the source, a key
  outside them raises `KeyError` during concordance; the model cannot express that key.
- `Electre.Concordance`, `Electre.GlobalConcordance`: the requires weight sum ≠ 0 stands
  for the source's `ZeroDivisionError`, which raises rather than returning a value.
- `Profiles.CreateProfiles`: an empty table returns `None`. The source then produces
  NaN profiles, which exact reals cannot represent.
- `Profiles.Quantile` models pandas' default linear interpolation on exact reals. The
  source's skipping of missing values (NaN) when it takes a minimum or quantile is left
  out.
- `Electre.Capitalize` changes case for ASCII letters only. Python's `str.capitalize`
  also maps other Unicode letters; both procedure names are ASCII.
- `Analysis.Classify` takes as its input the string `str(...)` makes of each cell. The
  conversion itself is left out. No case is lost: every `str()` result is a string the
  model reads, and a missing label read from the product file becomes "nan", which is
  not counted.
- `Profiles.ObservationsBetweenExtremes` proves observations only weakly between b1 and
  b6. The outer profiles are 0.1·min and 1.5·max (supernutriscore.py:410, :415, :418,
  :423), so the enclosure is strict only when the column's minimum is positive: with a
  minimum of 0, the 0.1·min margin is 0 itself.
- `NutriScore.SugarsLookupExamples`: a value is scored by the first row whose threshold
  exceeds it (supernutriscore.py:65), so 10.6 g of sugar lies in the [10, 14) g band and
  scores 3 points.
- Monotonicity in λ is proved for the pessimistic procedure only
  (`Electre.PessimisticThresholdMonotone`). The optimistic procedure does not have it.
  It stops at the first profile that outranks the item without being outranked by it.
  Raising λ can stop that profile from outranking the item, so the scan goes on and the
  category improves. `Electre.OptimisticThresholdNotMonotone` proves this on a concrete
  configuration with improving profiles (E at λ = 0.5, A at λ = 0.7).
