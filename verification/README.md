# A verified model of the calculator's exact algorithms

The repository calculates difficulty and performance values for the four osu! game modes. Most of it
is floating-point formulas. Underneath them lie exact algorithms: searches that must not miss the best
candidate, sorts that must be permutations, state machines that must not lose an object. This
project models those algorithms in Dafny and proves what they are for.

Times, strains, accuracies and scores are `real`, counts are `nat`. `dafny verify dfyconfig.toml`
checks everything.

## Where to look

| file | what it models | main results |
|---|---|---|
| `HitResults.dfy` | saturating casts, rounding windows | `RatioOrder`, `WindowSuffices`, `NearestOnLine` |
| `ManiaSplits.dfy`, `ManiaScan.dfy`, `ManiaSearch.dfy`, `Mania.dfy` | osu!mania's `generate_state` | every arm attains the minimum over all splits that keep the given counts |
| `OsuSearch.dfy`, `Osu.dfy` | osu!standard's `generate_state` | the closest split, and its unique form after the priority shift |
| `Taiko.dfy`, `Catch.dfy` | the other two modes | closest split; fruits, droplets and misses always balance |
| `Sorting.dfy`, `HeapSort.dfy`, `Introsort.dfy` | C#'s introspective sort | sorted permutation for every total preorder |
| `OsuLegacy.dfy`, `Tandem.dfy`, `DecodeOrder.dfy` | the legacy sort, the tandem sorter, their callers | start times stay; objects stay exactly if all start times differ; one stored order for any number of lists |
| `Strains.dfy`, `DifficultyValue.dfy` | the run-length encoded strains and their weighted sum | refinement of the plain list; largest of all orders; monotone |
| `Aim.dfy`, `AimOrigins.dfy`, `AimPeaks.dfy`, `AimReduction.dfy`, `AimStore.dfy`, `AimSkill.dfy`, `AimDifficulty.dfy` | variable-length strain sections | for whole runs, peaks cover their sections and are attained, the hardest are stored, and reducing them lowers the difficulty |
| `TimingLines.dfy`, `Timeline.dfy`, `TimelineExact.dfy`, `BpmMultipliers.dfy`, `BeatmapDecoder.dfy` | control points of a decoded map | filtered and unfiltered timeline mean the same, and nothing superfluous is kept |
| `TaikoColor.dfy`, `TaikoPatterns.dfy`, `TaikoRepetition.dfy`, `TaikoAssign.dfy` | taiko's colour encoding | three lossless groupings, maximal, every object finds its groups |
| `LegacyScore.dfy`, `MissCalculator.dfy` | legacy score and the misses estimated from it | closed form, agreement of estimator and simulator |
| `Gradual.dfy`, `CatchCounts.dfy` | results for growing prefixes | gradual equals batch |

Code that changes state is a class or works on arrays, and each of its methods is tied to a function
of the old state. Where a loop has its own invariant, its body is a method of its own.

## What the code does not do

Some properties one would expect turned out to be false of the code. The model follows the code, and for
each it says where the property fails and exactly when it holds.

* Hit sounds do not always stay with their objects. In mania the decoder runs the legacy sort over the
  objects but not over their sounds, and of two objects at the same time each ends up with the other's
  sound (`DecodeOrder.PairingLost`). Objects keep the places of the tandem sort, and so their sounds, exactly
  if no two of them start together (`DecodeOrder.SortHitObjects`, `DecodeOrder.SoundsFollow`).
* The redundancy check for difficulty points ignores the BPM multiplier, so the filter can lose it:
  `BpmMultipliers.MultiplierLost` has two lines (-1000 and -2000) of which the second is dropped
  although it doubles the multiplier. Multipliers survive at all times exactly if no point that changes
  them passes for redundant (`BpmMultipliers.MultipliersKeptExactly`), which takes a beat length below -1000
  (`BpmMultipliers.HiddenChange`, `BpmMultipliers.MultipliersKept`).
* A streak's type is not always the colour of its hits: it is that of its first object, which may be a drum
  roll or swell (`TaikoColor.RollHidesColor`). All types are colours exactly if no hit resumes the colour of
  the last one right after such an object (`TaikoColor.StreakTypes`).
* `nth(n)` of the gradual calculator returns the last result instead of nothing when fewer than `n + 1`
  results are left (`Gradual.NthDeviates`), and `len()` of an empty map is 1.
* The miss calculator's documentation says that the estimate is always at least 1. A perfect play of
  circles gets 0 (`MissCalculator.PerfectPlay`), and `MissCalculator.EstimateBounds` says when it is 1 or more.
  It also says that a total score of 0 gives 0. On a map without sliders one miss gives 1
  (`MissCalculator.ZeroScoreIsAMiss`), and `MissCalculator.EstimateIsZero` says when the estimate is 0, in
  which the total score has no part.
* The combo an object is worth comes out as 1 for maps of circles and spinners only from three objects
  on; for one or two it is not positive (`MissCalculator.RelevantIsOne`).

Two more oddities can be seen in the classes but not from outside, because the calculators evaluate clones
of the skills and consume the vector. An aim skill that is evaluated before its first object keeps the
provisional peak of that moment (`AimSkill.EvaluatedTooEarly`); evaluations later on are exact
(`AimSkill.Replay`). `StrainsVec::len` is not updated by `retain_non_zero`, so it is right afterwards exactly
if there were no zeros (`Strains.StrainsVec.RetainNonZero`).

## Model

| member | source | states |
|---|---|---|
| HitResults.RatioOrder | src/mania/performance/mod.rs:873-878 | comparing two accuracy distances is comparing how far the hit points are from the target, for every total |
| HitResults.NearestOnLine | src/taiko/performance/mod.rs:255-258 | the floor and the ceiling of the solution, cast to unsigned and cut off, contain the preferred point of the whole line, and the window is never empty |
| HitResults.WindowSuffices | src/mania/performance/mod.rs:699-705 | the same when both bounds are raised to a given minimum |
| ManiaSplits.AdjustedWindow | src/mania/performance/mod.rs:676-684 | whatever n320 and n300 are given, the n3x0 window is not empty, respects them, and leaves out only what lies beyond the solution |
| ManiaSplits.ClosestAll | src/mania/performance/mod.rs:664-675 | an n3x0 outside its window reaches no hit-point total closer than those inside |
| ManiaSplits.ClosestN200 | src/mania/performance/mod.rs:686-697 | for fixed n3x0, an n200 outside its window is no closer |
| ManiaSplits.PerfectExactly | src/mania/performance/mod.rs:873-878 | accuracies lie in [0, 1], and 1 takes 320s and 300s only |
| ManiaSearch.SearchAll | src/mania/performance/mod.rs:659-742 | the three nested windows attain the minimum distance over all splits that keep n320 and n300 |
| ManiaSearch.SearchGivenN200 | src/mania/performance/mod.rs:460-520 | the same over all splits with the given n200 |
| ManiaSearch.SearchGivenN100 | src/mania/performance/mod.rs:522-583 | the same with the given n100, although the lower bound leaves out the misses |
| ManiaSearch.SearchGivenN50 | src/mania/performance/mod.rs:585-657 | the same with the given n50 |
| ManiaSearch.SearchGivenN100N50 | src/mania/performance/mod.rs:323-368 | the same with n100 and n50 given |
| ManiaSearch.SearchGivenN200N50 | src/mania/performance/mod.rs:370-413 | the same with n200 and n50 given |
| ManiaSearch.SearchGivenN200N100 | src/mania/performance/mod.rs:415-458 | the same with n200 and n100 given |
| Mania.Redistribute | src/mania/performance/mod.rs:733-741 | moving pairs of n200 to n320 and n100 keeps the total and the accuracy's numerator and leaves at most one n200 |
| Mania.Divide3x0 | src/mania/performance/mod.rs:723-731 | given n320 or n300 are kept, and both together make up n3x0 unless both are given |
| Mania.Determine | src/mania/performance/mod.rs:283-321 | with at most one count open, the result keeps the given counts and fills the total |
| Mania.OnlySplit | src/mania/performance/mod.rs:295-321 | that result is the closest, because no other split keeps the given counts |
| Mania.WithAccuracy | src/mania/performance/mod.rs:280-744 | in every arm: closest to the accuracy among all splits with the given counts, total met, counts kept, open counts decided by priority |
| Mania.FillIsBest | src/mania/performance/mod.rs:748-757 | without an accuracy, no split with the given counts is more accurate than the best case |
| Mania.FillIsWorst | src/mania/performance/mod.rs:758-767 | and none is less accurate than the worst case |
| Mania.FillIsExtreme | src/mania/performance/mod.rs:748-767 | count by count: of all plays with the given counts, the best case has the most 320s, then 300s, and so on, and the worst case the most 50s, then 100s, and so on |
| Mania.ClosestAccuracy | src/mania/performance/mod.rs:873-878 | closest in hit points means closest in the accuracy the repository reports |
| Mania.ManiaPerformance.GenerateState | src/mania/performance/mod.rs:252-786 | the new fields are the result, the result answers the request, and a second call returns the same |
| Mania.ManiaPerformance.GeneratedIsSettled | src/mania/performance/mod.rs:770-786 | any answer to a request made of earlier results is that earlier result |
| OsuSearch.SplitOrder | src/osu/performance/mod.rs:879-915 | with fixed slider values the accuracies of two full splits compare like their points |
| OsuSearch.AccuracyOfFull | src/osu/performance/mod.rs:879-915 | the accuracy of a full split is its points, sliders included, over the best possible |
| OsuSearch.PerfectExactly | src/osu/performance/mod.rs:879-915 | accuracies lie in [0, 1], and 1 takes 300s only and every tick and slider end that counts, whatever the origin of the score |
| OsuSearch.SearchAll | src/osu/performance/mod.rs:569-607 | the two nested windows find the closest of all splits, and the one worth less among equally close ones |
| OsuSearch.SearchGivenN300 | src/osu/performance/mod.rs:466-499 | the closest of all splits with the given n300 |
| OsuSearch.SearchGivenN100 | src/osu/performance/mod.rs:500-533 | the closest of all splits with the given n100 |
| OsuSearch.SearchGivenN50 | src/osu/performance/mod.rs:534-568 | the closest of all splits with the given n50 |
| OsuSearch.Shift | src/osu/performance/mod.rs:608-623 | exchanging one n300 and four n50 for five n100, or back, keeps total and value and cannot be done again |
| OsuSearch.NearestUnique | src/osu/performance/mod.rs:569-624 | closest splits that cannot be shifted any more are one and the same |
| Osu.DeterminedIsNearest | src/osu/performance/mod.rs:454-465 | two given counts leave a single split, which is therefore the closest |
| Osu.WithAccuracy | src/osu/performance/mod.rs:451-625 | in every arm: closest among the splits with the given counts, total met, shifted if nothing was given |
| Osu.FillIsBest | src/osu/performance/mod.rs:629-635 | without an accuracy, the best case is worth the most |
| Osu.FillIsWorst | src/osu/performance/mod.rs:636-641 | and the worst case the least |
| Osu.FillIsExtreme | src/osu/performance/mod.rs:629-641 | what is filled up keeps the given counts and the total, and no such play is worth more, or less |
| Osu.ExtremeUnique | src/osu/performance/mod.rs:629-641 | there is only one such play |
| Osu.OsuPerformance.GenerateState | src/osu/performance/mod.rs:367-670 | result written back, request answered, slider hits as given up to the map's own, combo the largest that was asked for and that the misses allow, second call the same |
| Osu.OsuPerformance.FullPlayIsPerfect | src/osu/performance/mod.rs:395-447 | if no slider hits are given, all 300s have accuracy 1 at every origin: what is not given counts as hit |
| Osu.OsuPerformance.GivenHits | src/osu/performance/mod.rs:395-429 | each given slider count comes back cut to the map's own number, and is 0 where the score does not know it |
| Osu.OsuPerformance.OpenHits | src/osu/performance/mod.rs:395-429 | a count that is not given is what giving all of them would be |
| Osu.OsuPerformance.LargestCombo | src/osu/performance/mod.rs:645-649 | the combo is the largest that, together with the misses, stays within the map's and is not above the given one |
| Osu.OsuPerformance.AnswerUnique | src/osu/performance/mod.rs:451-625 | a request has one answer, if there is an accuracy and the given counts fit, or if there is none |
| Osu.OsuPerformance.GeneratedIsSettled | src/osu/performance/mod.rs:650-670 | any answer to a request made of earlier results is that earlier result |
| Taiko.Search | src/taiko/performance/mod.rs:250-271 | the single window holds the closest split, and the one worth less among equally close ones |
| Taiko.PerfectExactly | src/taiko/performance/mod.rs:389-398 | accuracies lie in [0, 1]: 1 for 300s only, a half for 100s only, 0 for an empty play |
| Taiko.TaikoPerformance.GenerateState | src/taiko/performance/mod.rs:217-306 | result written back, request answered, second call the same |
| Taiko.TaikoPerformance.LargestCombo | src/taiko/performance/mod.rs:289-293 | the combo is the largest that, together with the misses, stays within the map's and is not above the given one |
| Taiko.TaikoPerformance.AnswerUnique | src/taiko/performance/mod.rs:239-287 | a request that can be met has exactly one answer |
| Catch.Balance | src/catch/performance/mod.rs:290-336 | no unsigned subtraction underflows, fruits, droplets and misses add up to the map's, and given counts are followed as far as the map allows |
| Catch.BalancedUnique | src/catch/performance/mod.rs:290-336 | these promises leave a single pair of fruits and droplets |
| Catch.PerfectExactly | src/catch/performance/mod.rs:501-512 | accuracies lie in [0, 1], and 1 takes catching everything |
| Catch.FindBestTinyDroplets | src/catch/performance/mod.rs:341-367 | hits and misses add up, and the number of tiny droplets is the closest of all unless the play is empty |
| Catch.CatchPerformance.GenerateState | src/catch/performance/mod.rs:266-416 | result written back, fruits and droplets balanced, tiny droplets as given or closest, second call the same |
| Catch.CatchPerformance.SecondCall | src/catch/performance/mod.rs:408-416 | balancing and searching again from a result gives that result |
| Sorting.SortedPlaces | src/util/sort/csharp.rs:6-11 | sorted arrangements of the same elements agree, place by place, up to equivalence |
| Sorting.ConditionalSwap | src/util/sort/mod.rs:45-52 | afterwards the two elements are in order, and only they may have moved |
| Sorting.ThreeInOrder | src/util/sort/csharp.rs:64-66 | three conditional swaps put three elements in order |
| HeapSort.DownHeap | src/util/sort/mod.rs:25-43 | a node sinks until the heap property holds from it on; the range is only rearranged |
| HeapSort.RootIsLargest | src/util/sort/mod.rs:19-22 | nothing in a heap exceeds its root |
| HeapSort.Extract | src/util/sort/mod.rs:19-22 | exchanging the root with the last element extends the sorted tail |
| HeapSort.Sort | src/util/sort/mod.rs:9-23 | the range is sorted and rearranged, everything else untouched |
| Introsort.InsertKeepsOrder | src/util/sort/csharp.rs:97-112 | rotating an element in front of the larger ones keeps the prefix sorted |
| Introsort.InsertionSort | src/util/sort/csharp.rs:97-112 | sorts and rearranges the range |
| Introsort.PickPivotAndPartition | src/util/sort/csharp.rs:59-95 | both scans stay inside the range, and the pivot ends between what is not larger and what is not smaller |
| Introsort.PivotPlaced | src/util/sort/csharp.rs:92-94 | bringing the parked pivot back completes the partition |
| Introsort.IntroSort | src/util/sort/csharp.rs:22-57 | sorts and rearranges the range within any depth limit, and terminates |
| Introsort.Sort | src/util/sort/csharp.rs:6-20 | for every total preorder the slice becomes a sorted permutation of itself |
| OsuLegacy.Scan | src/util/sort/osu_legacy.rs:40-47 | on ordered objects both inner loops stop at the first and the last place of the pivot's start time, and do not move after that |
| OsuLegacy.Partition | src/util/sort/osu_legacy.rs:31-61 | no index leaves the range or underflows, start times stay, both parts are smaller; the pivot is alone in its time and nothing moves, or the first and the last object of its time change places across the parts |
| OsuLegacy.ResortKept | src/util/sort/osu_legacy.rs:24-27 | sorting an ordered range again cannot change its sequence of start times |
| OsuLegacy.StepMoves | src/util/sort/osu_legacy.rs:65-81 | whichever part is sorted first, an object that an exchange sent to the other part does not come back |
| OsuLegacy.HalvesWithinDepth | src/util/sort/osu_legacy.rs:5-5 | without ties the parts are halves, so a depth limit of 32 lasts for every slice below 2^33 |
| OsuLegacy.DepthLimitedQuickSort | src/util/sort/osu_legacy.rs:18-83 | terminates, permutes the objects, leaves the sequence of start times, and moves some object if two of them start together |
| OsuLegacy.Sort | src/util/sort/osu_legacy.rs:10-16 | the same for the whole slice: nothing moves if all start times differ, and only then |
| Tandem.StableOrderUnique | src/util/sort/tandem.rs:15-17 | a stable order is determined by the slice and the comparison, whichever algorithm finds it |
| Tandem.StableOrderPermutes | src/util/sort/tandem.rs:15-17 | the stored indices are a permutation |
| Tandem.TandemSorter.NewStable | src/util/sort/tandem.rs:12-29 | stores the stable order of a slice that it does not touch |
| Tandem.TandemSorter.Sort | src/util/sort/tandem.rs:31-59 | place k of any long enough slice receives what stood at the k-th stored index; the order survives any number of calls |
| Tandem.TandemSorter.FollowCycle | src/util/sort/tandem.rs:41-56 | one cycle is moved and marked, whole cycles stay whole, so each is visited once |
| Tandem.TandemSorter.ToggleMarks | src/util/sort/tandem.rs:61-75 | clearing the marks gives back the stored order |
| DecodeOrder.SortHitObjects | src/model/beatmap/decode.rs:290-299 | sounds follow the stable order of the objects; so do the objects, in mania exactly if no two of them start together; start times are in order in any case |
| DecodeOrder.SoundsFollow | src/model/beatmap/decode.rs:290-299 | where objects and sounds can be told apart, every object keeps its sound exactly if it follows the stable order |
| DecodeOrder.PairingLost | src/model/beatmap/decode.rs:290-299 | two objects at the same time, decoded for mania: each has the other's sound |
| DecodeOrder.SortConverted | src/mania/convert/mod.rs:135-139 | the other caller: the slice handed to the legacy sort is ordered, and stays so |
| Strains.ExpandCompress | src/util/strains_vec.rs:54-71 | pushing any non-negative values one by one and expanding the entries gives the values back |
| Strains.CompressExpand | src/util/strains_vec.rs:54-71 | entries without adjacent zero runs are exactly what pushing their expansion builds |
| Strains.CanonicalRoundTrip | src/util/strains_vec.rs:54-71 | both directions at once: canonical entries and non-negative sequences correspond |
| Strains.StrainsIter.Next | src/util/strains_vec.rs:204-226 | yields the next expanded value and leaves the rest, counting runs down in place |
| Strains.StrainsVec.Push | src/util/strains_vec.rs:54-71 | appends the value to the plain contents, never leaving two adjacent zero runs |
| Strains.StrainsVec.PushAll | src/util/strains_vec.rs:54-71 | pushing any values one by one: contents and length are theirs, and the entries are the shortest |
| Strains.StrainsVec.RetainNonZero | src/util/strains_vec.rs:83-92 | the contents lose their zeros; the stored length stays and is right exactly if there were none |
| Strains.StrainsVec.RetainNonZeroAndSort | src/util/strains_vec.rs:94-99 | the contents become the non-zero values in descending order |
| Strains.StrainsVec.Total | src/util/strains_vec.rs:110-118 | the sum of the plain contents |
| Strains.StrainsVec.Collect | src/util/strains_vec.rs:120-123 | iterating gives the plain contents |
| Strains.StrainsVec.IntoVec | src/util/strains_vec.rs:135-182 | the converted vector is the plain contents |
| Strains.SortDescSorts | src/util/strains_vec.rs:74-81 | descending and a permutation |
| DifficultyValue.DifficultyOf | src/any/difficulty/skills.rs:81-101 | the loop computes the weighted sum of the sorted non-zero peaks |
| DifficultyValue.SortingGains | src/any/difficulty/skills.rs:92-99 | no order of the peaks weighs more than the descending one |
| DifficultyValue.ValueIsLargest | src/any/difficulty/skills.rs:81-101 | the value is at least the weighted sum of the same peaks, zeros included, in any order |
| DifficultyValue.ZerosDoNotCount | src/any/difficulty/skills.rs:85-90 | leaving out the zeros gives what keeping them at the end would give |
| DifficultyValue.RaisingHelps | src/any/difficulty/skills.rs:81-101 | raising a peak never lowers the value |
| DifficultyValue.MoreSectionsHelp | src/any/difficulty/skills.rs:81-101 | one more section never lowers it |
| AimSections.PeakIsUpperBound | src/osu/difficulty/skills/aim.rs:82-139 | after every step, the current peak is at least the strain of each processed object from 400 before the section's end on |
| AimSections.SavedPeaksAreUpperBounds | src/osu/difficulty/skills/aim.rs:82-139 | every saved section's peak covers all objects of the run that start inside it, the one at its beginning included |
| AimSections.SectionsTileTime | src/osu/difficulty/skills/aim.rs:95-139 | saved sections follow one another without gap, last between 0 and 400, and add up to the way the section start moved |
| AimSections.RunIsSound | src/osu/difficulty/skills/aim.rs:82-139 | the invariant behind these for every run: queue in order of time, never harder, dominating what was discarded |
| AimSections.PushDominates | src/osu/difficulty/skills/aim.rs:106-115 | what the pops discard is dominated by the object that follows |
| AimSections.BackfillKeeps | src/osu/difficulty/skills/aim.rs:120-139 | the backfill terminates past the object, tiles time, and keeps the invariant |
| AimOrigins.SectionsExplained | src/osu/difficulty/skills/aim.rs:82-152 | for whole runs, what begin, end and peak of every section are: opened by an object, or carried over a break from the last object's strain, decayed, and the hardest object within 400 that still waits, and cut only by a harder object |
| AimOrigins.PeaksAttained | src/osu/difficulty/skills/aim.rs:82-152 | every saved peak is the strain of an object, or the strain of the last object before the section times its decay up to the section |
| AimOrigins.StrainsFollow | src/osu/difficulty/skills/aim.rs:202-219 | each strain is the one before, decayed over the strain time, plus the share of the difficulty that makes up for the decay; 0 with autopilot |
| AimOrigins.StrainsBounded | src/osu/difficulty/skills/aim.rs:202-219 | while decay is a share, no strain leaves the range from 0 to the hardest object |
| AimOrigins.PeaksBounded | src/osu/difficulty/skills/aim.rs:82-152 | and neither does the peak of any section of any run |
| AimPeaks.InsertPeakAt | src/osu/difficulty/skills/aim.rs:178-183 | the place a binary search finds on a descending list |
| AimPeaks.RemoveInserted | src/osu/difficulty/skills/aim.rs:155-161 | inserting a peak and removing the first equal one restores the list, duplicates or not |
| AimPeaks.InsertKeepsDescending | src/osu/difficulty/skills/aim.rs:178-183 | the list stays descending and gains only that peak |
| AimPeaks.ChunkIsReduced | src/osu/difficulty/skills/aim.rs:300-309 | a chunk lies between the baseline and the full strain and is at most 20 long |
| AimPeaks.ReducedStrainPeaks | src/osu/difficulty/skills/aim.rs:285-318 | terminates also over its own chunks, conserves the length of the positive peaks, moves no time above any value, and is descending |
| AimReduction.ChunkValue | src/osu/difficulty/skills/aim.rs:300-307 | within the first 4000, a chunk keeps 72.7 percent of the strain and the scale's share of the other 27.3 |
| AimReduction.FirstChunk | src/osu/difficulty/skills/aim.rs:300-307 | the hardest moment keeps 72.7 percent |
| AimReduction.LateChunk | src/osu/difficulty/skills/aim.rs:300-307 | from 4000 on nothing is reduced |
| AimReduction.ChunkRises | src/osu/difficulty/skills/aim.rs:300-307 | later chunks are never reduced more |
| AimReduction.ChunkAt | src/osu/difficulty/skills/aim.rs:300-309 | a section's chunks start every 20, and the last one is as long as what is left |
| AimReduction.ReducedFront | src/osu/difficulty/skills/aim.rs:292-315 | sections that last 4000 together: those in front that it takes to reach 4000 are replaced by their chunks, each at its own time, and the others stay |
| AimReduction.FrontCovers | src/osu/difficulty/skills/aim.rs:295-295 | they are the fewest that reach it |
| AimReduction.PositiveKeeps | src/osu/difficulty/skills/aim.rs:286-291 | exactly the peaks above 0 are looked at, each as often as it is there |
| AimStore.StoredIsFaithful | src/osu/difficulty/skills/aim.rs:154-176 | for whole maps of any length: stored peaks are descending and come from saved sections; for every bound, all peaks above it are stored if they last no longer than 44 seconds, and otherwise all of them or at least 43.6 seconds' worth, up to a drift of half a millisecond a section |
| AimStore.SaveAllKeeps | src/osu/difficulty/skills/aim.rs:154-176 | any sequence of saves keeps the order, invents no peak, and lets the total drift by half a millisecond a section at most |
| AimStore.PrunedAbove | src/osu/difficulty/skills/aim.rs:170-175 | pruning takes the easiest peaks: none above a bound goes if all above it fit |
| AimStore.SaveAllAbove | src/osu/difficulty/skills/aim.rs:154-176 | the same over any sequence of saves, with the drift they add |
| AimStore.StoredHardest | src/osu/difficulty/skills/aim.rs:154-176 | the same for whole maps, for all bounds at once |
| AimStore.NothingPruned | src/osu/difficulty/skills/aim.rs:170-175 | in particular, sections that together fit are all stored, and then the total is exact |
| AimStore.EvaluatedPeaks | src/osu/difficulty/skills/aim.rs:185-196 | what an evaluation hands on is descending with lengths from 0 to 400 |
| AimSkill.Aim.ProcessObject | src/osu/difficulty/skills/aim.rs:77-118 | the step taken on sections and stored peaks depends on neither past evaluations nor the provisional peak |
| AimSkill.Replay | src/osu/difficulty/skills/aim.rs:82-196 | for a whole map with evaluations after any of its objects: sections and stored peaks are those of a run without evaluations, and so is what each evaluation returns |
| AimStore.StoredStep | src/osu/difficulty/skills/aim.rs:82-118 | one object more saves exactly the sections of its step |
| AimSkill.EvaluatedTooEarly | src/osu/difficulty/skills/aim.rs:185-196 | an evaluation before the first object makes the one after it miss the first section, on every map |
| AimSkill.Aim.BackfillPeaks | src/osu/difficulty/skills/aim.rs:120-139 | the loop in place does what the sections' function says |
| AimSkill.Aim.SaveCurrentPeak | src/osu/difficulty/skills/aim.rs:154-176 | the provisional peak leaves, the finished one enters, pruning follows |
| AimSkill.Aim.GetCurrentStrainPeaks | src/osu/difficulty/skills/aim.rs:185-196 | finished peaks stay as they are, and the result is those plus the current section exactly if no outdated provisional peak was there |
| AimDifficulty.DifficultyValue | src/osu/difficulty/skills/aim.rs:269-283 | the loop computes the weighted sum of the sections, laid end to end |
| AimDifficulty.ConstantDifficulty | src/osu/difficulty/skills/aim.rs:269-283 | sections of one value are worth it for the weight of all their time together |
| AimDifficulty.SumIsDifficulty | src/osu/difficulty/skills/aim.rs:269-283 | the sum is that of its milliseconds one by one |
| AimDifficulty.ReducingLowers | src/osu/difficulty/skills/aim.rs:269-318 | keeping the time and moving none of it above any value lowers the sum, for every weight that falls with time |
| AimDifficulty.ReducedDifficulty | src/osu/difficulty/skills/aim.rs:269-318 | so the reduction never makes a map harder |
| Timeline.PointAtIsLast | src/model/control_point/difficulty.rs:47-52 | on a sorted list, the point in force is the last one not after the time |
| Timeline.PointAtBySearch | src/model/control_point/difficulty.rs:47-52 | the binary search finds it, or nothing before the first point |
| Timeline.TimingPointAt | src/model/control_point/timing.rs:35-41 | the same for timing points, but before the first point it is that one |
| Timeline.InsertSorted | src/model/beatmap/decode.rs:799-808 | inserting or overwriting keeps times strictly increasing |
| Timeline.RunFollowsGroups | src/model/beatmap/decode.rs:55-81 | in any order of lines, pending points amount to one point a group: its last inherited line, or else its first line |
| Timeline.GroupsKeepLines | src/model/beatmap/decode.rs:55-67 | grouping by time loses no line and keeps their order |
| Timeline.DecodedIsFiltered | src/model/beatmap/decode.rs:69-87 | the decoded list is the groups' points passed through the redundancy check one by one |
| Timeline.FilteredSorted | src/model/beatmap/decode.rs:83-87 | strictly sorted, even for lines out of order |
| Timeline.FilteredMeaning | src/model/beatmap/decode.rs:791-808 | at every time the value in force has the same flags and beat length, and velocity or speed within 2^-52, as in the full list: no drift |
| Timeline.DecodedMeaning | src/model/beatmap/decode.rs:55-87 | for lines in order the same of decoded and unfiltered timelines at every time, for all three kinds of points, with the defaults before the first |
| Timeline.TimingDecoded | src/model/beatmap/decode.rs:55-87 | for lines in order no timing point is lost, so any lookup among them is the same |
| TimelineExact.FlagsDecoded | src/model/beatmap/decode.rs:55-87 | at every time slider ticks and kiai are on in the decoded map exactly if they are in the unfiltered one |
| TimelineExact.KeptDiffer | src/model/beatmap/decode.rs:791-835 | filtering is thorough: every kept point differs from the one before it, or the default, by a flag or by more than 2^-52 |
| TimelineExact.DecodedDiffer | src/model/beatmap/decode.rs:55-87 | so does every difficulty and effect point of a decoded map |
| TimelineExact.GroupsAreRuns | src/model/beatmap/decode.rs:55-58 | lines are taken together exactly while their times are closer than 2^-52 to the line before |
| TimingLines.Rejected | src/model/beatmap/decode.rs:519-547 | which beat lengths are rejected, and with which error |
| TimingLines.InheritedRoundTrip | src/model/beatmap/decode.rs:507-578 | a line written for a slider velocity from 0.1 to 10 gives it back, its reciprocal as BPM multiplier, and in taiko and mania as scroll speed |
| TimingLines.TimingRoundTrip | src/model/beatmap/decode.rs:507-578 | a timing change from 6 to 60000 gives its beat length and defaults otherwise |
| TimingLines.DefaultLine | src/model/control_point/difficulty.rs:12-14 | the line for the default tempo gives exactly what is in force before the first line |
| TimingLines.NoTicks | src/model/control_point/difficulty.rs:17-28 | the beat length NaN turns ticks off and is 1 otherwise |
| TimingLines.CutOff | src/model/beatmap/decode.rs:555-575 | values outside their ranges become the nearest end |
| BpmMultipliers.MultipliersInverse | src/model/control_point/difficulty.rs:17-28 | slider velocity times BPM multiplier is 1 exactly for beat lengths from -1000 on, or without one |
| BpmMultipliers.ParsedReciprocal | src/model/beatmap/decode.rs:529-564 | the same for what parsing a line produces |
| BpmMultipliers.MultipliersKeptExactly | src/model/control_point/difficulty.rs:30-33 | filtering keeps BPM multipliers at all times exactly if no point that changes the one in force passes for redundant |
| BpmMultipliers.HiddenChange | src/model/control_point/difficulty.rs:17-33 | in beat lengths: a change passes for redundant only with a length below -1000, and among lengths from -1000 down always |
| BpmMultipliers.MultipliersKept | src/model/control_point/difficulty.rs:30-33 | hence without such lengths nothing is lost |
| BpmMultipliers.MultiplierLost | src/model/control_point/difficulty.rs:30-33 | otherwise not: beat lengths -1000 and -2000 decode to the multiplier 10 where 20 was asked for |
| BeatmapDecoder.BeatmapState.FlushPendingPoints | src/model/beatmap/decode.rs:69-81 | every pending point passes the redundancy check and leaves |
| BeatmapDecoder.BeatmapState.AddPendingPoint | src/model/beatmap/decode.rs:55-67 | flush when the time moves on, then front or back |
| BeatmapDecoder.BeatmapState.ParseTimingPoints | src/model/beatmap/decode.rs:507-578 | a line adds its two or three points together, and a rejected line changes nothing |
| BeatmapDecoder.PendAll | src/model/beatmap/decode.rs:555-575 | three calls for one line flush at most once |
| TaikoColor.BuildBuilds | src/taiko/difficulty/object.rs:43-102 | the previous note of a hit is the last hit before it, and other objects have none |
| TaikoColor.StreaksLossless | src/taiko/difficulty/color/preprocessor.rs:67-101 | the streaks of any objects contain all of them in order |
| TaikoColor.StreaksColored | src/taiko/difficulty/color/preprocessor.rs:83-98 | all hits of a streak have one colour, and only its first object may be no hit |
| TaikoColor.StreaksMaximal | src/taiko/difficulty/color/preprocessor.rs:83-98 | if all objects are hits, neighbouring streaks differ in colour |
| TaikoColor.StreakTypes | src/taiko/difficulty/color/data/mono_streak.rs:28-33 | every streak's type is the colour of its hits exactly if no hit resumes the colour of the last one right after what is no hit |
| TaikoColor.RollHidesColor | src/taiko/difficulty/color/data/mono_streak.rs:28-33 | a hit, a drum roll and a hit of the same colour: the second streak has the type of the roll |
| TaikoColor.EncodeMonoStreaks | src/taiko/difficulty/color/preprocessor.rs:67-101 | the loop builds these streaks |
| TaikoColor.EncodeAlternatingMonoPattern | src/taiko/difficulty/color/preprocessor.rs:103-138 | no streak lost, no empty pattern, one run length in a pattern, another one in the next |
| TaikoPatterns.GroupsAreMaximal | src/taiko/difficulty/color/preprocessor.rs:146-180 | a group is one pattern that does not come back, or three and more each coming back after two, up to the maximal extent |
| TaikoPatterns.MaximalGroupsUnique | src/taiko/difficulty/color/preprocessor.rs:146-180 | there is only one such grouping |
| TaikoPatterns.GroupsLossless | src/taiko/difficulty/color/preprocessor.rs:146-180 | it loses no pattern and has no empty group |
| TaikoPatterns.NextGroup | src/taiko/difficulty/color/preprocessor.rs:146-180 | the inner loop terminates and always leaves the two patterns it drains |
| TaikoPatterns.EncodeRepeatingHitPatterns | src/taiko/difficulty/color/preprocessor.rs:140-187 | the queue loop terminates with the maximal grouping |
| TaikoPatterns.Encode | src/taiko/difficulty/color/preprocessor.rs:60-65 | taking the groups of all levels apart gives back every object in order |
| TaikoPatterns.FindRepetitionInterval | src/taiko/difficulty/color/data/repeating_hit_patterns.rs:28-63 | the distance to the latest earlier group of the same shape, or 17 from 16 on |
| TaikoRepetition.RepetitionIsSameTypes | src/taiko/difficulty/color/data/alternating_mono_pattern.rs:23-31 | on maps of hits, one pattern repeats another exactly if the same sequence of colours is hit in both |
| TaikoRepetition.SameLengths | src/taiko/difficulty/color/data/repeating_hit_patterns.rs:45-56 | groups have the same shape exactly if they have as many patterns and the first two have the same run lengths |
| TaikoAssign.ProcessAndAssign | src/taiko/difficulty/color/preprocessor.rs:16-58 | afterwards every object refers to the streak, pattern and group that contain it |
| LegacyScore.SimulatedCombo | src/osu/difficulty/legacy_score/simulator.rs:50-88 | the simulated combo is the maximum combo, for every map |
| LegacyScore.SimulatedSeries | src/osu/difficulty/legacy_score/simulator.rs:24-107 | without sliders, the combo score is twelve times the multiplier times a triangular number |
| LegacyScore.SimulatedClosedForm | src/osu/difficulty/legacy_score/simulator.rs:24-107 | which is (n - 1)(n - 2)/2 for n objects |
| LegacyScore.SimState.SimulateObject | src/osu/difficulty/legacy_score/simulator.rs:50-88 | a slider is judged after its nested objects, the others before their combo |
| LegacyScore.Simulate | src/osu/difficulty/legacy_score/simulator.rs:24-41 | the loop plays the objects one after the other |
| LegacyScore.CalculateNestedScorePerObject | src/osu/difficulty/legacy_score/utils.rs:16-54 | times the number of objects it is the nested score |
| LegacyScore.NestedAgrees | src/osu/difficulty/legacy_score/utils.rs:16-54 | simulator and nested score value a map alike up to the spinners' bonus, exactly if each slider has one tail on average |
| MissCalculator.MaximumMissBounds | src/osu/difficulty/legacy_score/miss_calculator.rs:142-187 | at most the imperfect hits, and at most the misses plus the slider breaks that fit into the missing combo; the misses without sliders |
| MissCalculator.EstimateBounds | src/osu/difficulty/legacy_score/miss_calculator.rs:41-84 | between 0 and the combo-based estimate, and at least 1 exactly if no multiplier is 0 and that one sees a miss |
| MissCalculator.MaximumIsSmallest | src/osu/difficulty/legacy_score/miss_calculator.rs:142-187 | with sliders, the smallest of the power of how often the longest combo goes into a full one, the imperfect hits, and the misses with the breaks that fit |
| MissCalculator.MaximumReachesOne | src/osu/difficulty/legacy_score/miss_calculator.rs:142-187 | it sees one exactly if there was one, or with sliders: the combo falls short of the threshold, some hit is imperfect, and there was a miss or room for a break |
| MissCalculator.MaximumIsZero | src/osu/difficulty/legacy_score/miss_calculator.rs:142-187 | it is 0 exactly if nothing was missed, on a map with sliders instead: if the combo reaches the threshold, no hit is imperfect, or there was neither a miss nor room for a break |
| MissCalculator.EstimateIsZero | src/osu/difficulty/legacy_score/miss_calculator.rs:41-84 | the estimate is 0 exactly if that one is or a multiplier is 0, whatever the total score |
| MissCalculator.ZeroScoreIsAMiss | src/osu/difficulty/legacy_score/miss_calculator.rs:41-42 | no sliders, one miss and a total score of 0: the estimate is 1 |
| MissCalculator.HigherScoreFewerMisses | src/osu/difficulty/legacy_score/miss_calculator.rs:43-84 | a higher score never means more misses |
| MissCalculator.MissesOfTheRest | src/osu/difficulty/legacy_score/miss_calculator.rs:43-84 | a map whose part outside the longest combo scored r times less than expected is estimated at r misses, but at least 1 and at most the combo-based estimate; that one if nothing is left for it |
| MissCalculator.BreaksFit | src/osu/difficulty/legacy_score/miss_calculator.rs:170-179 | a number of slider breaks is possible exactly if there are so many sliders and each costs two of the missing combo |
| MissCalculator.ThresholdEnds | src/osu/difficulty/legacy_score/miss_calculator.rs:153-161 | a full combo may fall short by four slider ends and 4 to 10 percent of the others, and by no more than there are |
| MissCalculator.ThresholdFalls | src/osu/difficulty/legacy_score/miss_calculator.rs:153-161 | a higher slider factor never makes the threshold stricter |
| MissCalculator.RelevantIsOne | src/osu/difficulty/legacy_score/miss_calculator.rs:123-138 | without sliders an object is worth one combo exactly from three objects on |
| MissCalculator.SeriesIsTriangle | src/osu/difficulty/legacy_score/miss_calculator.rs:96-107 | the estimator's arithmetic series is the simulator's sum |
| MissCalculator.ScoreMatchesSimulator | src/osu/difficulty/legacy_score/miss_calculator.rs:87-120 | on every map without sliders, at full accuracy the combo part at any combo k is the simulated score of the first k objects |
| MissCalculator.FullComboMatches | src/osu/difficulty/legacy_score/miss_calculator.rs:96-138 | sliders or not, at the full combo the series is the map's combo score without its multiplier |
| MissCalculator.FullComboScore | src/osu/difficulty/legacy_score/miss_calculator.rs:87-138 | so at full accuracy the combo part at the full combo is the simulated score of the map times the mods |
| MissCalculator.SlidersDeviate | src/osu/difficulty/legacy_score/miss_calculator.rs:96-138 | before the full combo it is an estimate: after the first of three short sliders it is 0, and the simulator has scored |
| MissCalculator.AccuracyScales | src/osu/difficulty/legacy_score/miss_calculator.rs:87-120 | the score at any combo is in proportion to the accuracy |
| MissCalculator.ObjectsAddUp | src/osu/difficulty/legacy_score/miss_calculator.rs:111-120 | two stretches of combo share the hits and their score |
| MissCalculator.PerfectPlayScore | src/osu/difficulty/legacy_score/miss_calculator.rs:87-138 | a perfect play of any map with one tail a slider scores what the simulator gives for combo and hits, and its spinners' bonus |
| MissCalculator.PerfectPlay | src/osu/difficulty/legacy_score/miss_calculator.rs:43-120 | a perfect play of circles scores what the simulator says and is estimated at no miss |
| Gradual.CountsAddUp | src/osu/convert.rs:23-45 | the counted combo is the maximum combo, and the three object counts add up to the objects |
| Gradual.CountsAreCounts | src/osu/convert.rs:33-44 | each count is the number of objects of its kind in the prefix, and the large ticks are the rest of the combo next to objects and tails |
| Gradual.PrefixCombo | src/osu/difficulty/mod.rs:137-143 | the simulator's combo over a prefix is the prefix's counted combo |
| Gradual.ConvertObjects | src/osu/convert.rs:23-45 | the countdown over all objects counts the prefix |
| Gradual.Calculate | src/osu/difficulty/mod.rs:102-164 | the batch result for any limit is the prefix's |
| Gradual.OsuGradualDifficulty.Next | src/osu/difficulty/gradual.rs:181-208 | the k-th result is the batch result for k objects, then there is none |
| Gradual.OsuGradualDifficulty.Nth | src/osu/difficulty/gradual.rs:216-234 | state and result of min(n + 1, remaining) calls of next |
| Gradual.OsuGradualDifficulty.Len | src/osu/difficulty/gradual.rs:238-240 | the results to come, but 1 for an empty map |
| Gradual.NthDeviates | src/osu/difficulty/gradual.rs:216-234 | what an iterator promises holds exactly if n results and one more are left, or none |
| CatchCounts.GradualIsRegular | src/catch/attributes.rs:158-194 | for every trace and every i up to the recorded fruits and droplets, the first i deltas add up to the regular counts |
| CatchCounts.TrailingTinyDroplets | src/catch/attributes.rs:185-194 | beyond that they agree exactly if no tiny droplets trail |
| CatchCounts.OneDeltaEach | src/catch/attributes.rs:158-183 | there is one delta for each fruit or droplet |
| CatchCounts.CountBothWays | src/catch/attributes.rs:42-56 | a map recorded by both builders, its regular counts set and its first deltas added: the attributes agree exactly if the limit is within the recorded objects or no tiny droplets trail |
| CatchCounts.CountTinyDroplets | src/catch/object/juice_stream.rs:77-106 | halving until 100 milliseconds gives the fewest equal pieces, with a tiny droplet at each inner boundary |

## Left out

- IEEE rounding, NaN, infinities and signed zeros: times, strains, accuracies and scores are exact numbers. `None` stands for the NaN of an empty play and of a beat length in a file; an `f32` detour of the beat length is exact here.
- Unsigned overflow of counts: they are unbounded, except where a subtraction saturates or a cast cuts off at 0.
- Formulas for stars and pp, strain evaluators, `powf`, `log10`: they are parameters, with the bounds that the proofs use stated in a `requires` (the power of 2.5 is non-negative, at least 1 exactly from 1 on, and 0 exactly at 0; the weight of time falls).
- Text parsing, slider curves and events, mods, mode dispatch and builder setters. Which foreign defaults the control points have (1000 for a beat, kiai off, scroll speed 1) comes from another crate.
- Reference counting, weak references and lifetime extension: objects and groups are values or indices.
- Mania.ManiaPerformance.GenerateState: among equally accurate splits it does not say which one the search prefers, because the nested windows visit them in no simple order. The same holds of a request for no objects at all, where every accuracy is undefined, and of given counts that do not fit, where only the clamped counts and the filled total are stated.
- Tandem.TandemSorter.NewStable: the standard library's stable sort is modelled by a stable insertion, which `Tandem.StableOrderUnique` justifies. The mark in the top bit of an index is the addition or subtraction of 2^63.
- DecodeOrder.SortHitObjects: sounds are numbers. That ties move objects is said of slices below 2^33 objects, which can be told apart from each other: a larger one could reach the heap sort behind the depth limit of 32 before its ties, and equal objects can change places without a trace.
- OsuLegacy.Sort: ordered input only, which both callers establish, and the same bound for the part about ties.
- AimSections.RunIsSound: start times never decrease, as decoding sorts them.
- AimPeaks.ReducedStrainPeaks: the final stable sort is an insertion, and the scale is any function that maps the unit interval into itself.
- Timeline.DecodedMeaning: for lines out of order only that the list is sorted is stated (`Timeline.FilteredSorted`).
- MissCalculator.ScoreMatchesSimulator: maps without sliders; with sliders estimator and simulator agree at the full combo (`MissCalculator.FullComboScore`) but not everywhere before it (`MissCalculator.SlidersDeviate`). The mod multiplier is a parameter.
- LegacyScore.SimulatedClosedForm: the score multiplier is a natural number, as its rounding makes it.
- Gradual.OsuGradualDifficulty.Next: skills are an abstract state with an abstract step, and an evaluation is a function of the state. Stacking and slider ends, which do not depend on the prefix, are left out.
- The gradual calculators of the other modes: osu!catch's counting is `CatchCounts`, its iteration has the shape of osu!'s; osu!taiko's combo bookkeeping assumes that a map begins with two hits.
- Mania pattern generators and their random numbers, osu! stacking, the rhythm evaluator and catch movement: heuristics without a crisp intended invariant.
