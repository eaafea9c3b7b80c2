/**
 * The flag-and-reset scheme shared by every cleaning strategy: each
 * channel gets a median and a threshold computed from its own samples; a
 * channel holding any sample strictly above its threshold is flagged,
 * counted and overwritten with its median; every other channel is left
 * as it was. The strategies differ only in how the median, the spread and
 * the threshold are computed, which a `Rule` records.
 */
module Cleaning {
  import opened Scalar
  import opened Layout
  import opened OrderStatistics

  /** Some sample of `ch` lies strictly above `t`. */
  predicate Exceeds(ch: seq<real>, t: real) {
    exists i :: 0 <= i < |ch| && ch[i] > t
  }

  /**
   * How a strategy turns a channel into a median and a threshold.
   *   SerialMad     MadRfi
   *   ParallelMad   MadParallelRfi
   *   MedianStdDev  MedianStandardDeviationRfi; `stdDev` is the buffer's
   *                 standard deviation of a channel about a reference value
   *   Baseline      RudimentaryRfi (float only); `sqrt` is the square root
   */
  datatype Rule =
    | SerialMad(kind: ScalarKind, threshold: real)
    | ParallelMad(kind: ScalarKind, threshold: real)
    | MedianStdDev(kind: ScalarKind, threshold: real, stdDev: (seq<real>, real) -> real)
    | Baseline(threshold: real, sqrt: real -> real)

  function KindOf(rule: Rule): ScalarKind {
    if rule.Baseline? then F32 else rule.kind
  }

  /** The fewest samples per channel a rule's median is defined for. */
  function MinSpectra(rule: Rule): nat {
    if rule.Baseline? then 2 else 1
  }

  /**
   * RudimentaryRfi's stand-in for "no sample left": its median search
   * starts every pass from 1e7 and overwrites each sample it extracts with
   * it.
   */
  const Sentinel: real := 10000000.0

  /** A sample as the median search sees it: values at or above the sentinel count as the sentinel. */
  function Cap(x: real): real {
    if x < Sentinel then x else Sentinel
  }

  function Capped(ch: seq<real>): (r: seq<real>)
    ensures |r| == |ch|
    ensures forall i :: 0 <= i < |r| ==> r[i] <= Sentinel
  {
    seq(|ch|, i requires 0 <= i < |ch| => Cap(ch[i]))
  }

  /**
   * RudimentaryRfi's median: the mean of the order statistics at n / 2 - 1
   * and n / 2 of the capped samples.
   */
  function BaselineMedian(ch: seq<real>): (m: real)
    requires |ch| >= 2
    ensures KthSmallest(Capped(ch), |ch| / 2 - 1) <= m <= KthSmallest(Capped(ch), |ch| / 2)
  {
    KthSmallestMonotone(Capped(ch), |ch| / 2 - 1, |ch| / 2);
    (KthSmallest(Capped(ch), |ch| / 2) + KthSmallest(Capped(ch), |ch| / 2 - 1)) / 2.0
  }

  /** With every sample below the sentinel the cap changes nothing: the baseline median is the usual even-length median. */
  lemma BaselineMedianOfSmallSamples(ch: seq<real>)
    requires |ch| >= 2 && forall i :: 0 <= i < |ch| ==> ch[i] < Sentinel
    ensures BaselineMedian(ch) == (KthSmallest(ch, |ch| / 2) + KthSmallest(ch, |ch| / 2 - 1)) / 2.0
  {
    assert Capped(ch) == ch;
  }

  /**
   * The channel median: the order statistic at n / 2 for the selection
   * based strategies, the baseline median for RudimentaryRfi.
   */
  function Median(rule: Rule, ch: seq<real>): (m: real)
    requires |ch| >= MinSpectra(rule)
    ensures !rule.Baseline? ==> m in ch
  {
    if rule.Baseline? then BaselineMedian(ch) else KthSmallest(ch, |ch| / 2)
  }

  /** Distance of every sample from m. */
  function Deviations(ch: seq<real>, m: real): (d: seq<real>)
    ensures |d| == |ch|
  {
    seq(|ch|, i requires 0 <= i < |ch| => Abs(ch[i] - m))
  }

  /**
   * Median absolute deviation about m: the order statistic at n / 2 of the
   * deviations, replaced by `floor` when it is not positive.
   */
  function MadOf(ch: seq<real>, m: real, floor: real): real
    requires |ch| > 0
  {
    var selected := KthSmallest(Deviations(ch, m), |ch| / 2);
    if selected > 0.0 then selected else floor
  }

  /**
   * The MAD of a channel of kind-values about a kind-value, with a positive
   * floor, is positive; with a floor that is itself a kind-value it is a
   * kind-value, hence at least 1 for the integral kinds.
   */
  lemma MadOfBounds(kind: ScalarKind, ch: seq<real>, m: real, floor: real)
    requires |ch| > 0 && AllInRange(kind, ch) && InRange(kind, m) && floor > 0.0
    ensures MadOf(ch, m, floor) > 0.0
    ensures InRange(kind, floor) ==> InRange(kind, MadOf(ch, m, floor))
    ensures kind != F32 && InRange(kind, floor) ==> MadOf(ch, m, floor) >= 1.0
  {
    var d := Deviations(ch, m);
    var selected := KthSmallest(d, |ch| / 2);
    var j :| 0 <= j < |d| && d[j] == selected;
    AbsDiffInRange(kind, ch[j], m);
    if InRange(kind, floor) && kind != F32 {
      PositiveWholeAtLeastOne(kind, MadOf(ch, m, floor));
    }
  }

  /** MadParallelRfi's floor: 1 for the unsigned kinds, 1e-6 for float. */
  function MadFloor(kind: ScalarKind): real {
    if kind == F32 then 1.0 / 1000000.0 else 1.0
  }

  /** Sum of the squared distances of the samples from m, in index order. */
  function SumSquares(ch: seq<real>, m: real): real {
    if ch == [] then 0.0
    else SumSquares(ch[..|ch| - 1], m) + (ch[|ch| - 1] - m) * (ch[|ch| - 1] - m)
  }

  /** Square root of the mean squared distance of the samples from m (RudimentaryRfi's calculate_std). */
  function StdDevAbout(sqrt: real -> real, ch: seq<real>, m: real): real
    requires |ch| > 0
  {
    sqrt(SumSquares(ch, m) / |ch| as real)
  }

  /** The channel's spread about its median m. */
  function Spread(rule: Rule, ch: seq<real>, m: real): real
    requires |ch| >= MinSpectra(rule)
  {
    match rule
    case SerialMad(_, _) => MadOf(ch, m, 1.0)
    case ParallelMad(kind, _) => MadOf(ch, m, MadFloor(kind))
    case MedianStdDev(_, _, stdDev) => stdDev(ch, m)
    case Baseline(_, sqrt) => StdDevAbout(sqrt, ch, m)
  }

  /** MadRfi's limit: the threshold converted to the element type, times the MAD, plus the median, converted again. */
  function SerialMadLimit(kind: ScalarKind, t: real, mad: real, m: real): real {
    Narrow(kind, mad * Narrow(kind, t) + m)
  }

  /** MadParallelRfi's limit: MAD times threshold converted to the element type, plus the median, converted again. */
  function ParallelMadLimit(kind: ScalarKind, t: real, mad: real, m: real): real {
    Narrow(kind, Narrow(kind, mad * t) + m)
  }

  /** MedianStandardDeviationRfi's limit: threshold times deviation converted to the element type, plus the median, converted again. */
  function StdDevLimit(kind: ScalarKind, t: real, sd: real, m: real): real {
    Narrow(kind, Narrow(kind, t * sd) + m)
  }

  /** RudimentaryRfi's limit, computed in floating point throughout. */
  function BaselineLimit(t: real, sd: real, m: real): real {
    t * sd + m
  }

  /**
   * The value a sample must exceed for the channel to be flagged, given
   * its median m, including each strategy's conversions to the element
   * type.
   */
  function Limit(rule: Rule, ch: seq<real>, m: real): real
    requires |ch| >= MinSpectra(rule)
  {
    match rule
    case SerialMad(kind, t) => SerialMadLimit(kind, t, Spread(rule, ch, m), m)
    case ParallelMad(kind, t) => ParallelMadLimit(kind, t, Spread(rule, ch, m), m)
    case MedianStdDev(kind, t, _) => StdDevLimit(kind, t, Spread(rule, ch, m), m)
    case Baseline(t, _) => BaselineLimit(t, Spread(rule, ch, m), m)
  }

  function Threshold(rule: Rule, ch: seq<real>): real
    requires |ch| >= MinSpectra(rule)
  {
    Limit(rule, ch, Median(rule, ch))
  }

  /** MadRfi's threshold of a channel, spelled out. */
  lemma SerialMadThreshold(kind: ScalarKind, t: real, ch: seq<real>)
    requires |ch| > 0
    ensures Median(SerialMad(kind, t), ch) == KthSmallest(ch, |ch| / 2)
    ensures Threshold(SerialMad(kind, t), ch)
         == SerialMadLimit(kind, t, MadOf(ch, KthSmallest(ch, |ch| / 2), 1.0), KthSmallest(ch, |ch| / 2))
  {
  }

  /** MadParallelRfi's threshold of a channel, spelled out. */
  lemma ParallelMadThreshold(kind: ScalarKind, t: real, ch: seq<real>)
    requires |ch| > 0
    ensures Median(ParallelMad(kind, t), ch) == KthSmallest(ch, |ch| / 2)
    ensures Threshold(ParallelMad(kind, t), ch)
         == ParallelMadLimit(kind, t, MadOf(ch, KthSmallest(ch, |ch| / 2), MadFloor(kind)), KthSmallest(ch, |ch| / 2))
  {
  }

  /** MedianStandardDeviationRfi's threshold of a channel, spelled out. */
  lemma StdDevThreshold(kind: ScalarKind, t: real, stdDev: (seq<real>, real) -> real, ch: seq<real>)
    requires |ch| > 0
    ensures Median(MedianStdDev(kind, t, stdDev), ch) == KthSmallest(ch, |ch| / 2)
    ensures Threshold(MedianStdDev(kind, t, stdDev), ch)
         == StdDevLimit(kind, t, stdDev(ch, KthSmallest(ch, |ch| / 2)), KthSmallest(ch, |ch| / 2))
  {
  }

  /** RudimentaryRfi's threshold of a channel, spelled out. */
  lemma BaselineThreshold(t: real, sqrt: real -> real, ch: seq<real>)
    requires |ch| >= 2
    ensures Median(Baseline(t, sqrt), ch) == BaselineMedian(ch)
    ensures Threshold(Baseline(t, sqrt), ch)
         == BaselineLimit(t, StdDevAbout(sqrt, ch, BaselineMedian(ch)), BaselineMedian(ch))
  {
  }

  /**
   * On float buffers a non-negative threshold puts the limit at or above
   * the median: the MAD is positive, and the deviation of the strategies
   * that take it as a parameter is assumed non-negative here. No float
   * channel is flagged unless some sample lies above its median.
   */
  lemma FloatThresholdAtLeastMedian(rule: Rule, ch: seq<real>)
    requires |ch| >= MinSpectra(rule) && KindOf(rule) == F32 && rule.threshold >= 0.0
    requires rule.MedianStdDev? || rule.Baseline? ==> Spread(rule, ch, Median(rule, ch)) >= 0.0
    ensures Threshold(rule, ch) >= Median(rule, ch)
  {
    FloatSpreadNonNegative(rule, ch);
    FloatLimit(rule, ch, Median(rule, ch));
    ProductNonNegative(rule.threshold, Spread(rule, ch, Median(rule, ch)));
  }

  /** The MAD is positive, and the parameter deviations are non-negative by assumption. */
  lemma FloatSpreadNonNegative(rule: Rule, ch: seq<real>)
    requires |ch| >= MinSpectra(rule) && KindOf(rule) == F32
    requires rule.MedianStdDev? || rule.Baseline? ==> Spread(rule, ch, Median(rule, ch)) >= 0.0
    ensures Spread(rule, ch, Median(rule, ch)) >= 0.0
  {
    if rule.SerialMad? {
      MadOfBounds(F32, ch, Median(rule, ch), 1.0);
    } else if rule.ParallelMad? {
      MadOfBounds(F32, ch, Median(rule, ch), MadFloor(F32));
    }
  }

  lemma ProductNonNegative(x: real, y: real)
    requires 0.0 <= x && 0.0 <= y
    ensures 0.0 <= x * y
  {
  }

  /** On float buffers every strategy's limit is threshold times spread plus median, without conversion. */
  lemma FloatLimit(rule: Rule, ch: seq<real>, m: real)
    requires |ch| >= MinSpectra(rule) && KindOf(rule) == F32
    ensures Limit(rule, ch, m) == rule.threshold * Spread(rule, ch, m) + m
  {
  }

  /**
   * Consequently a constant float channel (below the sentinel, for
   * RudimentaryRfi) is never flagged and a pass leaves it as it is. For
   * the unsigned types the wrapped limit can fall below the median, and
   * such a channel can be flagged.
   */
  lemma ConstantFloatChannelNotFlagged(rule: Rule, ch: seq<real>)
    requires |ch| >= MinSpectra(rule) && KindOf(rule) == F32 && rule.threshold >= 0.0
    requires rule.MedianStdDev? || rule.Baseline? ==> Spread(rule, ch, Median(rule, ch)) >= 0.0
    requires forall i :: 0 <= i < |ch| ==> ch[i] == ch[0]
    requires rule.Baseline? ==> ch[0] < Sentinel
    ensures !Flagged(TestOf(rule), ch) && Reset(TestOf(rule), ch) == ch
  {
    var m := Median(rule, ch);
    if rule.Baseline? {
      assert Capped(ch) == ch;
      var lo := KthSmallest(ch, |ch| / 2 - 1);
      var hi := KthSmallest(ch, |ch| / 2);
      assert lo == ch[0] && hi == ch[0];
    } else {
      assert m == ch[0];
    }
    FloatThresholdAtLeastMedian(rule, ch);
    assert !Exceeds(ch, Threshold(rule, ch));
  }

  /** Buffer shapes a rule can process: no channels, or enough samples per channel. */
  predicate Processable(rule: Rule, s: seq<real>, spectra: nat, channels: nat) {
    |s| == channels * spectra && (channels == 0 || spectra >= MinSpectra(rule))
  }

  /**
   * What a strategy computes for one channel: the value a flagged channel
   * is reset to and the value a sample must exceed for the channel to be
   * flagged. The pass below is stated for any such pair.
   */
  datatype ChannelTest = ChannelTest(median: seq<real> -> real, limit: seq<real> -> real)

  /** A rule's channel test; channels too short for the rule never occur in a processable buffer. */
  function TestOf(rule: Rule): ChannelTest {
    ChannelTest(
      ch => if |ch| >= MinSpectra(rule) then Median(rule, ch) else 0.0,
      ch => if |ch| >= MinSpectra(rule) then Threshold(rule, ch) else 0.0)
  }

  /**
   * Marks the channels on which `Implements` is consulted. It holds of
   * every channel; it exists so that the quantifier in `Implements` is
   * instantiated only where a proof asks for it.
   */
  predicate Consulted(ch: seq<real>) {
    true
  }

  /** `test` computes the rule's median and threshold on every channel long enough for the rule. */
  ghost predicate Implements(test: ChannelTest, rule: Rule) {
    forall ch {:trigger Consulted(ch)} :: Consulted(ch) && |ch| >= MinSpectra(rule) ==>
      test.median(ch) == Median(rule, ch) && test.limit(ch) == Threshold(rule, ch)
  }

  /** A rule's own test implements it. */
  lemma TestOfImplements(rule: Rule)
    ensures Implements(TestOf(rule), rule)
  {
  }

  /** What a test that implements a rule computes on one channel. */
  lemma ImplementsAt(test: ChannelTest, rule: Rule, ch: seq<real>)
    requires Implements(test, rule) && |ch| >= MinSpectra(rule)
    ensures test.median(ch) == Median(rule, ch)
    ensures test.limit(ch) == Threshold(rule, ch)
  {
    assert Consulted(ch);
  }

  /** A channel is flagged when some sample lies strictly above its limit. */
  predicate Flagged(test: ChannelTest, ch: seq<real>) {
    Exceeds(ch, test.limit(ch))
  }

  /** What one pass makes of a single channel: its median repeated when flagged, itself otherwise. */
  function Reset(test: ChannelTest, ch: seq<real>): seq<real> {
    if Flagged(test, ch) then seq(|ch|, _ => test.median(ch)) else ch
  }

  /** `s` with channel c tested and, when flagged, overwritten with its median. */
  function StepChannel(test: ChannelTest, s: seq<real>, spectra: nat, c: nat): (r: seq<real>)
    requires c * spectra + spectra <= |s|
    ensures |r| == |s|
  {
    var ch := ChannelOf(s, spectra, c);
    if Flagged(test, ch) then FillChannel(s, spectra, c, test.median(ch)) else s
  }

  /** `s` after the channel loop of a pass has visited channels 0 .. c - 1, in order. */
  function PassUpTo(test: ChannelTest, s: seq<real>, spectra: nat, c: nat): (r: seq<real>)
    requires c * spectra <= |s|
    ensures |r| == |s|
  {
    if c == 0 then s
    else
      PreviousChannelEnd(spectra, c);
      StepChannel(test, PassUpTo(test, s, spectra, c - 1), spectra, c - 1)
  }

  /** How many of channels 0 .. c - 1 of `s` are flagged. */
  function FlaggedUpTo(test: ChannelTest, s: seq<real>, spectra: nat, c: nat): nat
    requires c * spectra <= |s|
  {
    if c == 0 then 0
    else
      PreviousChannelEnd(spectra, c);
      FlaggedUpTo(test, s, spectra, c - 1) + if Flagged(test, ChannelOf(s, spectra, c - 1)) then 1 else 0
  }

  /** The whole buffer after one pass of `rule`. */
  function Cleaned(rule: Rule, s: seq<real>, spectra: nat, channels: nat): (r: seq<real>)
    requires Processable(rule, s, spectra, channels)
    ensures |r| == |s|
  {
    PassUpTo(TestOf(rule), s, spectra, channels)
  }

  /** The number of channels one pass of `rule` flags. */
  function FlaggedCount(rule: Rule, s: seq<real>, spectra: nat, channels: nat): nat
    requires Processable(rule, s, spectra, channels)
  {
    FlaggedUpTo(TestOf(rule), s, spectra, channels)
  }

  /** Channel i of `s` exists and is flagged. */
  predicate FlaggedAt(test: ChannelTest, s: seq<real>, spectra: nat, i: nat) {
    i * spectra + spectra <= |s| && Flagged(test, ChannelOf(s, spectra, i))
  }

  /** The indices below c that satisfy p. */
  function IndicesBelow(p: nat -> bool, c: nat): set<nat> {
    set i: nat | i < c && p(i)
  }

  /** Going from c - 1 to c adds c - 1 exactly when it satisfies p. */
  lemma IndicesBelowStep(p: nat -> bool, c: nat)
    requires c > 0
    ensures IndicesBelow(p, c) == IndicesBelow(p, c - 1) + if p(c - 1) then {c - 1} else {}
  {
  }

  /** The indices of the flagged channels among 0 .. c - 1. */
  function FlaggedSet(test: ChannelTest, s: seq<real>, spectra: nat, c: nat): set<nat> {
    IndicesBelow((i: nat) => FlaggedAt(test, s, spectra, i), c)
  }

  // ---------------------------------------------------------------------
  // One step of a strategy's channel loop
  // ---------------------------------------------------------------------

  /** The loop has not yet touched channel c or any later sample. */
  lemma {:induction false} PassKeepsLater(test: ChannelTest, s: seq<real>, spectra: nat, c: nat)
    requires c * spectra <= |s|
    ensures AgreeFrom(PassUpTo(test, s, spectra, c), s, c * spectra)
  {
    if c > 0 {
      PreviousChannelEnd(spectra, c);
      PassKeepsLater(test, s, spectra, c - 1);
    }
  }

  /**
   * Visiting channel c: the loop finds it as it was in `s`, cleans it, and
   * counts it exactly when it is flagged.
   */
  lemma PassStep(test: ChannelTest, s: seq<real>, spectra: nat, c: nat)
    requires c * spectra + spectra <= |s|
    ensures SampleIndex(spectra, c + 1, 0) == c * spectra + spectra
    ensures ChannelOf(PassUpTo(test, s, spectra, c), spectra, c) == ChannelOf(s, spectra, c)
    ensures PassUpTo(test, s, spectra, c + 1) == StepChannel(test, PassUpTo(test, s, spectra, c), spectra, c)
    ensures FlaggedUpTo(test, s, spectra, c + 1)
         == FlaggedUpTo(test, s, spectra, c) + if Flagged(test, ChannelOf(s, spectra, c)) then 1 else 0
  {
    PreviousChannelEnd(spectra, c + 1);
    PassKeepsLater(test, s, spectra, c);
    ChannelOfUnchangedSuffix(PassUpTo(test, s, spectra, c), s, spectra, c * spectra, c);
  }

  // ---------------------------------------------------------------------
  // Properties of one pass
  // ---------------------------------------------------------------------

  /**
   * Channel c of the buffer after the loop has visited channels
   * 0 .. n - 1 (c < n) is channel c of `s`, reset on its own.
   */
  lemma {:induction false} PassChannel(test: ChannelTest, s: seq<real>, spectra: nat, n: nat, c: nat)
    requires n * spectra <= |s| && c < n
    ensures c * spectra + spectra <= |s|
    ensures ChannelOf(PassUpTo(test, s, spectra, n), spectra, c) == Reset(test, ChannelOf(s, spectra, c))
  {
    PreviousChannelEnd(spectra, n);
    var prev := PassUpTo(test, s, spectra, n - 1);
    if c == n - 1 {
      PassStep(test, s, spectra, c);
    } else {
      PassChannel(test, s, spectra, n - 1, c);
      ChannelsOrdered(spectra, c, n - 1);
      FillOtherChannel(prev, spectra, n - 1, c, test.median(ChannelOf(prev, spectra, n - 1)));
    }
  }

  /**
   * One pass of a rule: a channel holding a sample strictly above its
   * threshold becomes its median repeated, any other channel is unchanged.
   */
  lemma CleanedChannel(rule: Rule, s: seq<real>, spectra: nat, channels: nat, c: nat)
    requires Processable(rule, s, spectra, channels) && c < channels
    ensures c * spectra + spectra <= |s|
    ensures var ch := ChannelOf(s, spectra, c);
      ChannelOf(Cleaned(rule, s, spectra, channels), spectra, c)
        == if Exceeds(ch, Threshold(rule, ch)) then seq(spectra, _ => Median(rule, ch)) else ch
  {
    PassChannel(TestOf(rule), s, spectra, channels, c);
  }

  /**
   * The flagged count is the number of flagged channels, whatever order
   * the channels are visited in: it is the size of the set of flagged
   * channel indices.
   */
  lemma {:induction false} FlaggedUpToIsSetSize(test: ChannelTest, s: seq<real>, spectra: nat, c: nat)
    requires c * spectra <= |s|
    ensures FlaggedUpTo(test, s, spectra, c) == |FlaggedSet(test, s, spectra, c)|
    ensures FlaggedUpTo(test, s, spectra, c) <= c
  {
    if c == 0 {
      assert FlaggedSet(test, s, spectra, c) == {};
    } else {
      PreviousChannelEnd(spectra, c);
      FlaggedUpToIsSetSize(test, s, spectra, c - 1);
      IndicesBelowStep((i: nat) => FlaggedAt(test, s, spectra, i), c);
    }
  }

  /** The count a pass returns: how many channels it flags, never more than there are. */
  lemma FlaggedCountIsFlaggedChannels(rule: Rule, s: seq<real>, spectra: nat, channels: nat)
    requires Processable(rule, s, spectra, channels)
    ensures FlaggedCount(rule, s, spectra, channels) == |FlaggedSet(TestOf(rule), s, spectra, channels)|
    ensures FlaggedCount(rule, s, spectra, channels) <= channels
  {
    FlaggedUpToIsSetSize(TestOf(rule), s, spectra, channels);
  }

  /** While nothing has been flagged the buffer is as it was. */
  lemma {:induction false} NothingFlaggedNothingChanged(test: ChannelTest, s: seq<real>, spectra: nat, c: nat)
    requires c * spectra <= |s|
    requires FlaggedUpTo(test, s, spectra, c) == 0
    ensures PassUpTo(test, s, spectra, c) == s
  {
    if c > 0 {
      PreviousChannelEnd(spectra, c);
      NothingFlaggedNothingChanged(test, s, spectra, c - 1);
    }
  }

  /** A pass that flags no channel leaves the buffer exactly as it was. */
  lemma UnflaggedPassIsIdentity(rule: Rule, s: seq<real>, spectra: nat, channels: nat)
    requires Processable(rule, s, spectra, channels)
    requires FlaggedCount(rule, s, spectra, channels) == 0
    ensures Cleaned(rule, s, spectra, channels) == s
  {
    NothingFlaggedNothingChanged(TestOf(rule), s, spectra, channels);
  }
}
