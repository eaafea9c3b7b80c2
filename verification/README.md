# rfim in Dafny: radio-frequency-interference cleaning of time-frequency buffers

rfim cleans radio-astronomy data held in channel-major time-frequency
buffers. A buffer holds C frequency channels of S spectra each, and sample
s of channel c sits at index c * S + s. The element type is float, uint8_t
or uint16_t.

A cleaning strategy visits every channel. It computes a median and a
spread for the channel, and from them a threshold. A channel holding any
sample strictly above its threshold is flagged, counted and overwritten
with its median; every other channel is left alone. The four strategies
differ only in how they compute these values:

- MadRfi: the median absolute deviation, with floor 1.
- MadParallelRfi: the median absolute deviation, with floor 1 or 1e-6.
- MedianStandardDeviationRfi: a standard deviation about the median.
- RudimentaryRfi: a float-only baseline. It averages the two middle order
  statistics and uses a root-mean-square spread.

A file processor cuts a file into buffer-sized chunks, cleans each one and
writes it out. A path helper resolves file names against a reference path.

## Modules

- `Scalar`: element types, range, float-to-unsigned conversion.
- `Wrappers`: errors and results.
- `Metadata`: the shape record.
- `Layout`: channel-major indexing.
- `OrderStatistics` and `Selection`: the k-th smallest element, and the
  in-place selection standing in for `std::nth_element`.
- `TimeFrequencyBuffer`: the buffer class.
- `Cleaning`: the flag-and-reset pass shared by every strategy.
  - `Cleaned(rule, s, S, C)` is the buffer after one pass.
  - `FlaggedCount(rule, s, S, C)` is the number of channels flagged.
- `Detection`: the read-only channel scan.
- One module per strategy: `MadRfiStrategy`, `MadParallelRfiStrategy`,
  `MedianStdDevRfiStrategy` and `RudimentaryRfiStrategy`.
- `RfiStrategy`: the `process` dispatch over the four strategies.
- `FileProcessing`: the chunk loop.
- `Filepath`: the path helper.
- `Scenarios`: the unit-test buffers of MadRfi.

Each strategy's processing routine is an imperative method that changes
the buffer in place. It is proved to leave the buffer equal to
`Cleaned(...)` of the old buffer and to return `FlaggedCount(...)`. The
lemmas in `Cleaning` state what those mean:

- each flagged channel becomes all-median;
- each other channel is unchanged;
- the count is the size of the set of flagged channels, so it does not
  depend on the order the channels are visited in;
- a pass that flags nothing changes nothing.

Integers are unbounded and samples are real numbers. Where the code stores
into an unsigned element type, the model writes the truncation and the
modulo-2^bits wrap-around out explicitly (`Narrow`).

Where the code differs from what its comments and naming suggest, the
model follows the code:

- MedianStandardDeviationRfi's default threshold is 4.5 for every element
  type (rfim/src/MedianStandardDeviationRfi.h:29). The integral default of
  5 exists only in RudimentaryRfi, which is float-only, so that branch is
  dead.
- MadParallelRfi's default threshold is 10.0 (rfim/src/MadParallelRfi.h:39).
- MadRfi's MAD floor is 1 for float as well (rfim/src/MadRfi.h:79-81). A
  float MAD that is positive but below 1 is returned as it is. So
  "mad >= 1" holds for the unsigned types only; for float the MAD is
  merely positive.

## Model

| member | source | states |
|---|---|---|
| Metadata.Default | rfim/src/TimeFrequencyMetadata.h:30-38 | the default record has 4096 channels, 10000 spectra, frequencies 1700 and 2000, a channel width of 300/4096 and a sampling time of 50e-6 (values from rfim/src/TimeFrequencyMetadata.cpp:5-10) |
| Metadata.TimeFrequencyMetadata.IsEqual | rfim/src/TimeFrequencyMetadata.h:48-59 | true exactly when all six fields are pairwise equal, i.e. when the records are equal |
| Metadata.IsEqualDetectsEachField | rfim/src/TimeFrequencyMetadata.h:48-59 | comparison is reflexive; changing any single field of the default record makes it compare unequal |
| TimeFrequencyBuffer.CopyPrefix | rfim/src/TimeFrequency.h:35 | `std::copy`: the first n destination elements become the source's, the rest of the destination is unchanged, and a distinct source is untouched |
| TimeFrequencyBuffer.AllInRangeSplice | rfim/src/MadRfi.h:77 | permuting one segment of a buffer keeps every sample a value of the element type |
| TimeFrequencyBuffer.TimeFrequency.constructor | rfim/src/TimeFrequency.h:25-29 | a fresh array of exactly channels * spectra samples, all zero, with the given metadata; zero channels or spectra give an empty buffer |
| TimeFrequencyBuffer.TimeFrequency.Copy | rfim/src/TimeFrequency.h:31-36 | the copy has equal metadata and equal samples in a fresh array, so later writes to one buffer do not affect the other |
| TimeFrequencyBuffer.TimeFrequency.TotalSamples | rfim/src/TimeFrequency.h:127 | the total is the length of the buffer's array, which is channels * spectra |
| TimeFrequencyBuffer.TimeFrequency.ChannelInRange | rfim/src/TimeFrequency.h:118-123 | every sample of a channel is a value of the element type |
| TimeFrequencyBuffer.TimeFrequency.Sample | rfim/src/TimeFrequency.h:103-114 | for c < channels and s < spectra, get_sample(c, s) is sample s of channel c, held at index c * spectra + s |
| TimeFrequencyBuffer.TimeFrequency.ChannelStart | rfim/src/TimeFrequency.h:118-123 | for c < channels, the channel starts at index c * spectra and its spectra samples follow it inside the array |
| TimeFrequencyBuffer.TimeFrequency.SetSample | rfim/src/TimeFrequency.h:103-108 | writing through get_sample(c, s) changes index c * spectra + s and nothing else |
| TimeFrequencyBuffer.TimeFrequency.SetRaw | rfim/src/TimeFrequency.h:116 | writing through get_raw changes the one addressed element and nothing else |
| TimeFrequencyBuffer.TimeFrequency.ReadDataFromRaw | rfim/src/TimeFrequency.h:43-52 | a null source fails with invalid_argument and leaves the buffer alone; otherwise the buffer becomes the source's first total_samples elements |
| TimeFrequencyBuffer.TimeFrequency.WriteDataToRaw | rfim/src/TimeFrequency.h:54-63 | a null destination fails with invalid_argument; otherwise the destination's prefix becomes the buffer's samples, its tail is kept, and the buffer is unchanged |
| TimeFrequencyBuffer.TimeFrequency.IsEqual | rfim/src/TimeFrequency.h:65-81 | for the unsigned types, true exactly when metadata and all samples are equal; always true for the buffer itself |
| TimeFrequencyBuffer.TimeFrequency.IsEqualWithinTolerance | rfim/src/TimeFrequency.h:83-101 | for float, true exactly when metadata are equal and every pair of samples differs by at most 1e-6; always true for the buffer itself |
| TimeFrequencyBuffer.TimeFrequency.WriteDataToTimeFrequency | rfim/src/MadRfi.h:44 | copies every sample into the other buffer; a buffer of another size is refused with out_of_range and left unchanged; the source buffer is never changed |
| TimeFrequencyBuffer.TimeFrequency.SetChannelToValue | rfim/src/MadRfi.h:56 | every sample of channel c becomes v; every other sample is unchanged |
| TimeFrequencyBuffer.TimeFrequency.DestructiveChannelMedian | rfim/src/MadRfi.h:49 | returns the channel's order statistic at spectra / 2; it may reorder that channel only, and keeps its samples |
| Scalar.Narrow | rfim/src/MadRfi.h:52 | a conversion to the element type gives a value of that type; it is the identity for float and the floor for in-range non-negative values of the unsigned types |
| Scalar.AbsDiffInRange | rfim/src/MadParallelRfi.h:84-86 | the distance between two values of an element type is itself a value of that type, so the larger-minus-smaller deviation never leaves the range |
| OrderStatistics.SortSeqSortsAndPermutes | rfim/src/MadRfi.h:77 | the reference sort is sorted and a permutation of its input, which makes KthSmallest the k-th order statistic |
| OrderStatistics.SortedUnique | rfim/src/MadRfi.h:77 | two sorted permutations of the same elements are equal, so the k-th order statistic does not depend on how it was found |
| OrderStatistics.SortedPrefixIsSmallest | rfim/src/RudimentaryRfi.h:76-91 | a sorted prefix no larger than the rest of the elements consists of the smallest order statistics |
| OrderStatistics.KthSmallestWithOneOutlier | rfim_tests/src/MadRfiTests.cpp:76-93 | in a constant sequence with one larger element, every order statistic below the last is the constant |
| Selection.NthElement | rfim/src/MadRfi.h:77 | `std::nth_element`: permutes the range, puts no larger element before position k and no smaller one after it, and leaves the k-th order statistic of the old range at k; elements outside the range are kept |
| Detection.ChannelContainsRfi | rfim/src/MadRfi.h:62-70 | the read-only scan is true exactly when some sample of the channel is strictly above the threshold |
| Cleaning.Capped | rfim/src/RudimentaryRfi.h:79-90 | the median search sees one value per sample, none above the sentinel 1e7 |
| Cleaning.BaselineMedian | rfim/src/RudimentaryRfi.h:92 | RudimentaryRfi's median lies between the capped order statistics at spectra / 2 - 1 and spectra / 2 |
| Cleaning.BaselineMedianOfSmallSamples | rfim/src/RudimentaryRfi.h:92 | when every sample is below the sentinel, the median is the average of the order statistics at spectra / 2 - 1 and spectra / 2 |
| Cleaning.Median | rfim/src/MadRfi.h:49 | the median used by the three selection-based strategies is one of the channel's own samples |
| Cleaning.MadOfBounds | rfim/src/MadRfi.h:72-82 | the MAD with a positive floor is positive; with a floor of the element type it is of that type, hence at least 1 for the unsigned types |
| Cleaning.FloatSpreadNonNegative | rfim/src/MadRfi.h:72-82 | on float buffers the spread of either MAD rule is non-negative, and so is the deviation where it is a parameter that promises so |
| Cleaning.FloatThresholdAtLeastMedian | rfim/src/MadRfi.h:49-52 | on float buffers with a non-negative threshold, every rule's threshold is at least the channel's median (also MadParallelRfi.h:54-57, MedianStandardDeviationRfi.h:53-54, RudimentaryRfi.h:120) |
| Cleaning.ConstantFloatChannelNotFlagged | rfim/src/MadRfi.h:53-57 | on float buffers with a non-negative threshold, a constant channel (below the sentinel 1e7 for RudimentaryRfi) is never flagged and a pass leaves it as it is |
| Cleaning.PassKeepsLater | rfim/src/MadRfi.h:47-58 | the channel loop has not touched channel c or anything after it when it reaches channel c |
| Cleaning.PassStep | rfim/src/MadRfi.h:47-58 | visiting channel c finds it as it was, cleans it, and counts it exactly when it is flagged |
| Cleaning.PassChannel | rfim/src/MadRfi.h:47-58 | after the loop, each channel is its original self reset on its own, independent of the other channels |
| Cleaning.CleanedChannel | rfim/src/MadRfi.h:53-57 | after a pass, a channel with a sample strictly above its threshold is its median repeated and any other channel is unchanged |
| Cleaning.FlaggedUpToIsSetSize | rfim/src/MadParallelRfi.h:47-64 | the running count equals the number of flagged channels so far |
| Cleaning.FlaggedCountIsFlaggedChannels | rfim/src/MadParallelRfi.h:47-64 | the returned count is the size of the set of flagged channel indices, whatever the visiting order, and at most the number of channels |
| Cleaning.NothingFlaggedNothingChanged | rfim/src/MadRfi.h:53-57 | while no channel has been flagged the buffer is as it was |
| Cleaning.UnflaggedPassIsIdentity | rfim_tests/src/MadRfiTests.cpp:95-118 | a pass that flags no channel leaves the buffer exactly as it was |
| MadRfiStrategy.MadRfi.constructor | rfim/src/MadRfi.h:35-40 | stores the threshold and builds a zero scratch buffer of the given shape, the offset spectra / 2 and a one-channel deviation array |
| MadRfiStrategy.MadRfi.FillDeviations | rfim/src/MadRfi.h:74-75 | the deviation array holds each sample's distance from the median |
| MadRfiStrategy.MadRfi.CalculateMad | rfim/src/MadRfi.h:72-82 | the MAD is the order statistic at spectra / 2 of the distances from the median, or 1 when that is not positive; it is positive and of the element type |
| MadRfiStrategy.MadRfi.CleanChannelAt | rfim/src/MadRfi.h:49-57 | one channel: flagged exactly when the rule's test flags its original samples; the buffer becomes that channel cleaned and nothing else; the scratch copy after it is untouched |
| MadRfiStrategy.MadRfi.CleanNextChannel | rfim/src/MadRfi.h:47-58 | one loop iteration carries the loop invariant from channel c to c + 1 |
| MadRfiStrategy.MadRfi.CleanChannels | rfim/src/MadRfi.h:45-59 | the channel loop leaves the buffer equal to the whole pass and returns the number of flagged channels |
| MadRfiStrategy.MadRfi.ProcessImpl | rfim/src/MadRfi.h:42-60 | a buffer of another size fails with out_of_range and is unchanged; otherwise the buffer becomes Cleaned(old buffer) and the result is FlaggedCount(old buffer) |
| MadParallelRfiStrategy.MadParallelRfi.constructor | rfim/src/MadParallelRfi.h:39-43 | stores the threshold and builds a zero scratch buffer of the given shape and the offset spectra / 2 |
| MadParallelRfiStrategy.MadParallelRfi.OrderedDeviations | rfim/src/MadParallelRfi.h:81-87 | a fresh local vector of larger-minus-smaller distances, which equal the absolute differences |
| MadParallelRfiStrategy.MadParallelRfi.CalculateMadIntegral | rfim/src/MadParallelRfi.h:77-94 | for the unsigned types the MAD is the order statistic at spectra / 2 of the distances, or 1; it is of the element type and at least 1 |
| MadParallelRfiStrategy.MadParallelRfi.CalculateMadFloat | rfim/src/MadParallelRfi.h:96-109 | for float the MAD is the order statistic at spectra / 2 of the distances, or 1e-6; it is positive |
| MadParallelRfiStrategy.MadParallelRfi.CleanChannelAt | rfim/src/MadParallelRfi.h:54-62 | one channel: flagged exactly when the rule's test flags it; the buffer becomes that channel cleaned and nothing else |
| MadParallelRfiStrategy.MadParallelRfi.CleanNextChannel | rfim/src/MadParallelRfi.h:52-63 | one loop iteration carries the loop invariant from channel c to c + 1 |
| MadParallelRfiStrategy.MadParallelRfi.CleanChannels | rfim/src/MadParallelRfi.h:47-64 | the channel loop, taken in order, gives the whole pass and the flagged-channel count |
| MadParallelRfiStrategy.MadParallelRfi.ProcessImpl | rfim/src/MadParallelRfi.h:45-65 | a buffer of another size fails with out_of_range and is unchanged; otherwise the buffer becomes Cleaned(old buffer) and the result is FlaggedCount(old buffer) |
| MedianStdDevRfiStrategy.MedianStandardDeviationRfi.constructor | rfim/src/MedianStandardDeviationRfi.h:29-32 | stores the threshold and builds a zero scratch buffer of the given shape |
| MedianStdDevRfiStrategy.MedianStandardDeviationRfi.DoesChannelContainRfi | rfim/src/MedianStandardDeviationRfi.h:51-61 | true exactly when some sample is strictly above (threshold * deviation converted) + median, converted again |
| MedianStdDevRfiStrategy.MedianStandardDeviationRfi.CleanChannelAt | rfim/src/MedianStandardDeviationRfi.h:41-46 | one channel: flagged exactly when the rule's test flags it; the buffer becomes that channel cleaned and nothing else |
| MedianStdDevRfiStrategy.MedianStandardDeviationRfi.CleanNextChannel | rfim/src/MedianStandardDeviationRfi.h:39-47 | one loop iteration carries the loop invariant from channel c to c + 1 |
| MedianStdDevRfiStrategy.MedianStandardDeviationRfi.CleanChannels | rfim/src/MedianStandardDeviationRfi.h:37-48 | the channel loop gives the whole pass and the flagged-channel count |
| MedianStdDevRfiStrategy.MedianStandardDeviationRfi.ProcessImpl | rfim/src/MedianStandardDeviationRfi.h:34-49 | a buffer of another size fails with out_of_range and is unchanged; otherwise the buffer becomes Cleaned(old buffer) and the result is FlaggedCount(old buffer) |
| RudimentaryRfiStrategy.ExtractionStep | rfim/src/RudimentaryRfi.h:79-90 | taking the smallest capped sample and overwriting it with the sentinel keeps the taken values plus the remaining capped samples equal to the channel plus one more sentinel |
| RudimentaryRfiStrategy.ExtractedAreSmallest | rfim/src/RudimentaryRfi.h:76-91 | after iter + 1 passes, temp[0..iter] holds the iter + 1 smallest samples in nondecreasing order |
| RudimentaryRfiStrategy.StatsFollowRule | rfim/src/RudimentaryRfi.h:42-44 | medians and deviations computed per channel are the ones the baseline rule prescribes |
| RudimentaryRfiStrategy.RudimentaryRfi.constructor | rfim/src/RudimentaryRfi.h:32-34 | stores the threshold; the square root is a parameter |
| RudimentaryRfiStrategy.RudimentaryRfi.ExtractMin | rfim/src/RudimentaryRfi.h:79-90 | one pass finds the smallest capped sample of the channel and overwrites it, and only it, with the sentinel |
| RudimentaryRfiStrategy.RudimentaryRfi.ExtractNext | rfim/src/RudimentaryRfi.h:79-90 | one pass extends the sorted run of extracted minima and changes nothing after the channel |
| RudimentaryRfiStrategy.RudimentaryRfi.ExtractPasses | rfim/src/RudimentaryRfi.h:76-91 | after spectra / 2 + 1 passes, temp[k] is the k-th smallest capped sample for every k up to spectra / 2 |
| RudimentaryRfiStrategy.RudimentaryRfi.ChannelMedian | rfim/src/RudimentaryRfi.h:72-92 | the channel's median is the average of its capped order statistics at spectra / 2 - 1 and spectra / 2 |
| RudimentaryRfiStrategy.RudimentaryRfi.CalculateMedian | rfim/src/RudimentaryRfi.h:60-95 | every channel's median is computed on a copy, so the caller's buffer is not touched |
| RudimentaryRfiStrategy.RudimentaryRfi.ChannelSumSquares | rfim/src/RudimentaryRfi.h:102-107 | the accumulated sum is the sum of squared distances from the median |
| RudimentaryRfiStrategy.RudimentaryRfi.CalculateStd | rfim/src/RudimentaryRfi.h:97-110 | each channel's deviation is sqrt(sum of squared distances / spectra) |
| RudimentaryRfiStrategy.RudimentaryRfi.ScanChannel | rfim/src/RudimentaryRfi.h:117-124 | the flag is set exactly when some sample is strictly above threshold * deviation + median |
| RudimentaryRfiStrategy.RudimentaryRfi.CleanNextChannel | rfim/src/RudimentaryRfi.h:115-130 | one channel: cleaned as the pass prescribes and counted exactly when flagged |
| RudimentaryRfiStrategy.RudimentaryRfi.CleanData | rfim/src/RudimentaryRfi.h:112-134 | the loop gives the whole pass and returns the number of flagged channels |
| RudimentaryRfiStrategy.RudimentaryRfi.ProcessImpl | rfim/src/RudimentaryRfi.h:36-46 | the buffer becomes Cleaned(old buffer) and the result is FlaggedCount(old buffer) |
| RudimentaryRfiStrategy.RudimentaryRfi.ComputedStatsFollow | rfim/src/RudimentaryRfi.h:42-44 | the medians and deviations computed from the buffer are those of its own channels |
| RfiStrategy.RuleOf | rfim/src/RfiStrategy.h:13-15 | the rule a strategy applies works on the strategy's element type (StrategyDataType) |
| RfiStrategy.Process | rfim/src/RfiStrategy.h:28-32 | process hands the same buffer to the strategy's own routine: a wrong size fails with out_of_range and leaves the buffer alone; otherwise the buffer is cleaned in place and the result is the number of flagged channels |
| FileProcessing.CleanedChunks | rfim/src/FileProcessor.h:27-34 | the output of n rounds is n chunks long |
| FileProcessing.CleanedChunkAt | rfim/src/FileProcessor.h:29-34 | chunk i of the output is chunk i of the input cleaned on its own |
| FileProcessing.ReadChunk | rfim/src/DataReader.h:39-50 | a read past the end of the input fails with runtime_error; otherwise the buffer holds the next total_samples elements from the cursor |
| FileProcessing.FileProcessor.constructor | rfim/src/FileProcessor.h:17-20 | stores the strategy and the chunk shape |
| FileProcessing.FileProcessor.ProcessChunk | rfim/src/FileProcessor.h:31-32 | one round: chunk i is read into the buffer; a strategy built for another sample count fails with out_of_range, otherwise the buffer becomes chunk i cleaned |
| FileProcessing.FileProcessor.ProcessChunks | rfim/src/FileProcessor.h:29-34 | the rounds run in order and the output is the cleaned chunks in order; with a strategy built for another sample count the first round fails with out_of_range and nothing is written |
| FileProcessing.FileProcessor.ProcessFile | rfim/src/FileProcessor.h:22-37 | returns the number of whole chunks and the output is the concatenation of the cleaned chunks (no read reaches the end of the input); a strategy built for another sample count gives out_of_range with nothing written when there is a whole chunk, and 0 otherwise (rfim_tests/src/MadRfiTests.cpp:120-134) |
| Filepath.RFind | rfim/src/GetAbsoluteFilepathFromRelative.h:21-24 | rfind gives the last position holding the character, or none exactly when it does not occur |
| Filepath.CompareChar | rfim/src/GetAbsoluteFilepathFromRelative.h:13-14 | a one-character compare is 0, 1 or -1 as the characters are equal, greater or smaller |
| Filepath.FolderEndAsWritten | rfim/src/GetAbsoluteFilepathFromRelative.h:21-26 | the end of the kept prefix is one past the larger of the two separator positions, each falling back to 0 |
| Filepath.AbsoluteFromRelativeAsWritten | rfim/src/GetAbsoluteFilepathFromRelative.h:8-37 | fails with out_of_range exactly when the reference is empty |
| Filepath.AsWrittenEndsWithRelative | rfim/src/GetAbsoluteFilepathFromRelative.h:18-36 | the result always ends with the relative name |
| Filepath.AsWrittenFolderWithSeparator | rfim/src/GetAbsoluteFilepathFromRelative.h:13-17 | a folder reference ending in '/' or '\' gets no extra '/' |
| Filepath.AsWrittenFolderSlash | rfim/src/GetAbsoluteFilepathFromRelative.h:10-19 | a reference without '.' gives reference + "/" + relative when its last character sorts after '\', and reference + relative otherwise |
| Filepath.AsWrittenFileReference | rfim/src/GetAbsoluteFilepathFromRelative.h:21-36 | a reference with '.' keeps everything up to and including its last separator, then the relative name |
| Filepath.AsWrittenFileWithoutSeparator | rfim/src/GetAbsoluteFilepathFromRelative.h:21-35 | a reference with '.' and no separator keeps its first character in front of the name |
| Filepath.AsWrittenFolderEndingBelowBackslash | rfim/src/GetAbsoluteFilepathFromRelative.h:13-18 | the folder "data/RUN1" and the name "x.bin" resolve to "data/RUN1x.bin" |
| Filepath.AsWrittenBareFileName | rfim/src/GetAbsoluteFilepathFromRelative.h:21-36 | the reference "file.txt" and the name "a.bin" resolve to "fa.bin" |
| Filepath.FolderEnd | rfim/src/GetAbsoluteFilepathFromRelative.h:21-26 | one past the last separator, or 0 when there is none |
| Filepath.AbsoluteFromRelative | rfim/src/GetAbsoluteFilepathFromRelative.h:8-37 | the corrected helper fails with out_of_range on an empty reference, and with logic_error exactly on a reference with '.' but no separator (the intent of lines 28-33) |
| Filepath.ResolvedAfterSeparator | rfim/src/GetAbsoluteFilepathFromRelative.h:8-37 | on a non-empty reference the corrected helper succeeds exactly when the reference is a folder or has a separator; the result then ends with the name placed right after a separator; a folder reference is kept whole, with '/' added when needed; a file reference is kept up to its last separator |
| Filepath.CorrectedExamples | rfim/src/GetAbsoluteFilepathFromRelative.h:8-37 | the corrected helper resolves the two counterexamples to "data/RUN1/x.bin" and refuses "file.txt" with logic_error |
| Filepath.CorrectionAgrees | rfim/src/GetAbsoluteFilepathFromRelative.h:8-37 | wherever the code already behaves as intended, the corrected helper gives the same result |
| Scenarios.SpikedChannelThreshold | rfim/src/MadRfi.h:49-52 | a constant channel with one larger sample has that constant as median and the floor as MAD |
| Scenarios.SpikedChannelPass | rfim/src/MadRfi.h:53-57 | a spiked channel of ones is flagged exactly when its spike exceeds the limit, and then returns to all ones |
| Scenarios.TwoSpikesPass | rfim_tests/src/MadRfiTests.cpp:76-93 | on the 4 x 500 test buffer, each spike above the limit flags and cleans its channel |
| Scenarios.DefaultLimitOfOnes | rfim/src/MadRfi.h:35-52 | with the default threshold 4.5 a channel of ones gets a limit between 5 and 5.5 |
| Scenarios.DefaultThresholdCleansBothSpikes | rfim_tests/src/MadRfiTests.cpp:76-93 | spikes of 200 and 46 give a count of 2 and a buffer of all ones, for every element type |
| Scenarios.HighThresholdFlagsNothing | rfim_tests/src/MadRfiTests.cpp:95-118 | a threshold of 100 (unsigned types) or 1e8 (float) flags nothing and leaves the buffer as it was |
| Scenarios.SerialMadLimitWraps | rfim/src/MadRfi.h:52 | for uint8_t a median of 20 and a MAD of 60 give the wrapped limit 4, not 260 |
| Scenarios.WrappedLimitFlagsConstantChannel | rfim/src/MadRfi.h:49-56 | four uint8_t samples of 10 with threshold 250 get the wrapped limit 4 and are flagged, although resetting them to their median changes nothing |

## Left out

- Floating-point rounding: samples and every computed value are exact
  reals. This covers the float `1e-6f` tolerance, the division by 2.0 in
  RudimentaryRfi's median, and the float conversions of the metadata
  defaults.
- A float-to-unsigned conversion out of range is undefined behaviour in
  C++. `Scalar.Narrow` models it as the usual truncation followed by
  modulo-2^bits wrap-around.
- Overflow of `size_t` in channels * spectra and in chunk counts is not
  modelled: counts are unbounded naturals.
- The OpenMP parallel loop of MadParallelRfi is modelled as a sequential
  loop with a running sum. `Cleaning.FlaggedCountIsFlaggedChannels`
  shows that the count does not depend on the visiting order.
- `calculate_channel_standard_deviation` is not part of this model. It is
  a function parameter `stdDev` of MedianStandardDeviationRfi.
- TimeFrequencyBuffer.TimeFrequency.WriteDataToTimeFrequency,
  TimeFrequencyBuffer.TimeFrequency.SetChannelToValue and
  TimeFrequencyBuffer.TimeFrequency.DestructiveChannelMedian, like
  `calculate_channel_standard_deviation`: rfim/src/TimeFrequency.h does
  not define them. Their contracts are inferred from:
  - the call sites at rfim/src/MadRfi.h:44,49,56;
  - rfim_tests/src/MadRfiTests.cpp:84-92 (set_channel_to_value) and
    120-134 (out_of_range for a buffer of another size);
  - the nth_element offset spectra / 2 at rfim/src/MadRfi.h:38,77-78,
    taken to be the offset of the destructive median as well.
- MadRfiStrategy.MadRfi.ProcessImpl,
  MadParallelRfiStrategy.MadParallelRfi.ProcessImpl,
  MedianStdDevRfiStrategy.MedianStandardDeviationRfi.ProcessImpl,
  RfiStrategy.Process and
  TimeFrequencyBuffer.TimeFrequency.DestructiveChannelMedian: require at
  least one spectrum per channel when there are channels. With channels of
  no samples the code selects in empty ranges and reads element 0 of them
  (rfim/src/MadRfi.h:49,78, rfim/src/MadParallelRfi.h:90), which is
  undefined behaviour.
- Cleaning.SerialMadLimit and Scalar.Narrow: for uint16_t,
  `mad * threshold + median` at rfim/src/MadRfi.h:52 is computed in int
  after integer promotion and overflows, undefined behaviour, once it
  exceeds 2^31 - 1. The model converts the exact value with wrap-around
  instead.
- `std::sqrt` and `std::pow` are not modelled. RudimentaryRfi's square
  root is a function parameter; the squares are exact.
- Console output (`std::cout`) in RudimentaryRfi is left out.
- The file streams behind DataReader and DataWriter are not modelled.
  - The input file is a sequence of elements with a cursor.
  - The output file is the returned sequence.
  - Counting elements as bytes / sizeof(DataType) and a trailing partial
    element are not modelled.
  - Stream failures other than reading past the end, and writer
    failures, are not modelled.
- FileProcessing.ReadChunk: a failed read leaves the buffer's contents
  unspecified, where the stream may have filled part of it.
- FileProcessing.FileProcessor.ProcessFile: the processor holds its own
  copy of the strategy; the model uses the strategy it is given and
  declares that its scratch buffers change.
- FileProcessorInfo and the console demo are not part of this model.
- RfiStrategy.Process: `process` calls `processImpl`, which only MadRfi
  defines. The other three strategies define `process_impl`, so calling
  `process` on them would not compile. The model dispatches to each
  strategy's own routine, as evidently intended.
- RfiStrategy.Process: a buffer with the strategy's sample count but a
  different shape is excluded, as the strategy interface assumes.
- RudimentaryRfiStrategy.RudimentaryRfi.ProcessImpl: requires at least
  2 spectra per channel when there are channels. With fewer,
  `temp.size() / 2 - 1` underflows and the median reads out of bounds.
- RudimentaryRfi's integral default threshold is dead code, because the
  class accepts float only.
- Filepath.CompareChar: `string::compare` only promises the sign of its
  result. The model takes the magnitude to be 1, which makes `== 1` mean
  "greater than".
- Filepath.AbsoluteFromRelativeAsWritten: the `logic_error` branch of the
  path helper tests `npos == 0`, which is always false, so the as-written
  model has no such branch. The corrected helper raises it for a file
  reference without separators, as its message says.
- `get_raw` is modelled only through element writes (`SetRaw`) and
  channel starts; pointer arithmetic beyond these is not modelled.
- TimeFrequencyBuffer.TimeFrequency.ReadDataFromRaw and
  TimeFrequencyBuffer.TimeFrequency.WriteDataToRaw: require a non-null
  array to hold at least total_samples elements. The C++ code cannot
  check this for a raw pointer.

## Findings

| source | as written | input that shows it | evidently intended | confidence | as-written member | corrected member |
|---|---|---|---|---|---|---|
| rfim/src/GetAbsoluteFilepathFromRelative.h:13-17 | a '/' is added to a folder reference only when both one-character compares return 1, i.e. only when its last character sorts after both '\' and '/' | relative "x.bin", reference "data/RUN1" gives "data/RUN1x.bin" | add '/' whenever the folder does not already end in '/' or '\' (compare != 0), giving "data/RUN1/x.bin" | high (any compare result is negative for '1' against '\'); not executed | Filepath.AsWrittenFolderEndingBelowBackslash | Filepath.CorrectedExamples |
| rfim/src/GetAbsoluteFilepathFromRelative.h:21-35 | with a '.' but no separator, both separator positions fall back to 0 and `substr(0, 1)` keeps the reference's first character | relative "a.bin", reference "file.txt" gives "fa.bin" | a reference without a separator is refused with logic_error, as the message at lines 30-32 says; the guard at line 28 compares npos with 0 and never fires | high; not executed | Filepath.AsWrittenBareFileName | Filepath.CorrectedExamples |
