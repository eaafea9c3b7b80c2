/**
 * MadRfi on the buffers of its unit tests: four channels of 500 samples,
 * all 1 except one spike in channel 0 and one in channel 2, both at
 * sample 234.
 */
module Scenarios {
  import opened Scalar
  import opened Layout
  import opened OrderStatistics
  import opened Cleaning
  import MadRfiStrategy

  /** A channel of n samples equal to v except sample j, which is w. */
  function Spiked(n: nat, j: nat, v: real, w: real): (ch: seq<real>)
    ensures |ch| == n
  {
    seq(n, i => if i == j then w else v)
  }

  /**
   * A channel that is constant but for one sample that is not smaller has
   * that constant as its median and the floor as its MAD, so its limit is
   * the threshold times the floor above the constant.
   */
  lemma SpikedChannelThreshold(kind: ScalarKind, t: real, n: nat, j: nat, v: real, w: real)
    requires n >= 3 && j < n && v <= w
    ensures Median(SerialMad(kind, t), Spiked(n, j, v, w)) == v
    ensures Threshold(SerialMad(kind, t), Spiked(n, j, v, w)) == SerialMadLimit(kind, t, 1.0, v)
    ensures Median(ParallelMad(kind, t), Spiked(n, j, v, w)) == v
    ensures Threshold(ParallelMad(kind, t), Spiked(n, j, v, w)) == ParallelMadLimit(kind, t, MadFloor(kind), v)
  {
    var ch := Spiked(n, j, v, w);
    KthSmallestWithOneOutlier(ch, j, v, w, n / 2);
    var d := Deviations(ch, v);
    assert d[j] == w - v;
    forall i | 0 <= i < n && i != j ensures d[i] == 0.0 {
      assert ch[i] == v;
    }
    KthSmallestWithOneOutlier(d, j, 0.0, w - v, n / 2);
    SerialMadThreshold(kind, t, ch);
    ParallelMadThreshold(kind, t, ch);
  }

  /** The test buffer: four channels of 500 ones, with `first` at (0, 234) and `second` at (2, 234). */
  function TwoSpikes(first: real, second: real): (s: seq<real>)
    ensures |s| == 4 * 500
  {
    Spiked(500, 234, 1.0, first) + Spiked(500, 234, 1.0, 1.0)
      + Spiked(500, 234, 1.0, second) + Spiked(500, 234, 1.0, 1.0)
  }

  /** The channels of the test buffer. */
  lemma TwoSpikesChannels(first: real, second: real)
    ensures ChannelOf(TwoSpikes(first, second), 500, 0) == Spiked(500, 234, 1.0, first)
    ensures ChannelOf(TwoSpikes(first, second), 500, 1) == Spiked(500, 234, 1.0, 1.0)
    ensures ChannelOf(TwoSpikes(first, second), 500, 2) == Spiked(500, 234, 1.0, second)
    ensures ChannelOf(TwoSpikes(first, second), 500, 3) == Spiked(500, 234, 1.0, 1.0)
  {
  }

  /** What MadRfi's pass does with one channel of the test buffer. */
  lemma SpikedChannelPass(kind: ScalarKind, t: real, w: real)
    requires 1.0 <= w && 1.0 <= SerialMadLimit(kind, t, 1.0, 1.0)
    ensures var ch := Spiked(500, 234, 1.0, w);
      && Flagged(TestOf(SerialMad(kind, t)), ch) == (w > SerialMadLimit(kind, t, 1.0, 1.0))
      && Reset(TestOf(SerialMad(kind, t)), ch)
           == Spiked(500, 234, 1.0, if w > SerialMadLimit(kind, t, 1.0, 1.0) then 1.0 else w)
  {
    var rule := SerialMad(kind, t);
    var ch := Spiked(500, 234, 1.0, w);
    var limit := SerialMadLimit(kind, t, 1.0, 1.0);
    SpikedChannelThreshold(kind, t, 500, 234, 1.0, w);
    TestOfImplements(rule);
    ImplementsAt(TestOf(rule), rule, ch);
    if w > limit {
      assert ch[234] > limit;
      assert seq(500, _ => 1.0) == Spiked(500, 234, 1.0, 1.0);
    } else {
      assert !Exceeds(ch, limit) by {
        forall i | 0 <= i < 500 ensures ch[i] <= limit {
        }
      }
    }
  }

  /**
   * MadRfi on the test buffer: each spike above the limit flags its
   * channel, which returns to all ones; a spike at or below it stays.
   */
  lemma {:induction false} TwoSpikesPass(kind: ScalarKind, t: real, first: real, second: real)
    requires 1.0 <= first && 1.0 <= second && 1.0 <= SerialMadLimit(kind, t, 1.0, 1.0)
    ensures var limit := SerialMadLimit(kind, t, 1.0, 1.0);
      && Processable(SerialMad(kind, t), TwoSpikes(first, second), 500, 4)
      && FlaggedCount(SerialMad(kind, t), TwoSpikes(first, second), 500, 4)
           == (if first > limit then 1 else 0) + (if second > limit then 1 else 0)
      && Cleaned(SerialMad(kind, t), TwoSpikes(first, second), 500, 4)
           == TwoSpikes(if first > limit then 1.0 else first, if second > limit then 1.0 else second)
  {
    var rule := SerialMad(kind, t);
    var test := TestOf(rule);
    var s := TwoSpikes(first, second);
    var limit := SerialMadLimit(kind, t, 1.0, 1.0);
    var r := TwoSpikes(if first > limit then 1.0 else first, if second > limit then 1.0 else second);
    TwoSpikesChannels(first, second);
    TwoSpikesChannels(if first > limit then 1.0 else first, if second > limit then 1.0 else second);
    SpikedChannelPass(kind, t, first);
    SpikedChannelPass(kind, t, 1.0);
    SpikedChannelPass(kind, t, second);
    PassStep(test, s, 500, 0);
    PassStep(test, s, 500, 1);
    PassStep(test, s, 500, 2);
    PassStep(test, s, 500, 3);
    var out := Cleaned(rule, s, 500, 4);
    PassChannel(test, s, 500, 4, 0);
    PassChannel(test, s, 500, 4, 1);
    PassChannel(test, s, 500, 4, 2);
    PassChannel(test, s, 500, 4, 3);
    assert ChannelOf(out, 500, 0) == ChannelOf(r, 500, 0);
    assert ChannelOf(out, 500, 1) == ChannelOf(r, 500, 1);
    assert ChannelOf(out, 500, 2) == ChannelOf(r, 500, 2);
    assert ChannelOf(out, 500, 3) == ChannelOf(r, 500, 3);
    forall c | 0 <= c < 4
      ensures c * 500 + 500 <= |s| && ChannelOf(out, 500, c) == ChannelOf(r, 500, c)
    {
      assert c == 0 || c == 1 || c == 2 || c == 3;
    }
    ChannelsDetermine(Cleaned(rule, s, 500, 4), r, 500, 4);
  }

  /** With MadRfi's default threshold (4.5) a constant channel of ones gets a limit between 5 and 5.5. */
  lemma DefaultLimitOfOnes(kind: ScalarKind)
    ensures 5.0 <= SerialMadLimit(kind, MadRfiStrategy.DefaultThreshold, 1.0, 1.0) <= 5.5
  {
    if kind != F32 {
      assert Narrow(kind, MadRfiStrategy.DefaultThreshold) == 4.0;
      assert Narrow(kind, 5.0) == 5.0;
    }
  }

  /**
   * ProcessTest: with MadRfi's default threshold (4.5), spikes of 200 and 46 are
   * both flagged and the buffer ends all ones, for every element type.
   */
  lemma DefaultThresholdCleansBothSpikes(kind: ScalarKind)
    ensures FlaggedCount(SerialMad(kind, MadRfiStrategy.DefaultThreshold), TwoSpikes(200.0, 46.0), 500, 4) == 2
    ensures Cleaned(SerialMad(kind, MadRfiStrategy.DefaultThreshold), TwoSpikes(200.0, 46.0), 500, 4) == seq(4 * 500, _ => 1.0)
  {
    DefaultLimitOfOnes(kind);
    var limit := SerialMadLimit(kind, MadRfiStrategy.DefaultThreshold, 1.0, 1.0);
    assert 200.0 > limit && 46.0 > limit;
    TwoSpikesPass(kind, MadRfiStrategy.DefaultThreshold, 200.0, 46.0);
    AllOnes();
  }

  /** With both spikes equal to 1 the test buffer is all ones. */
  lemma AllOnes()
    ensures TwoSpikes(1.0, 1.0) == seq(4 * 500, _ => 1.0)
  {
  }

  /**
   * HighThresholdTest: with threshold 100 (integral types) or 1e8 (float),
   * spikes of 23 and 46 are not flagged and the buffer is left as it was.
   */
  lemma HighThresholdFlagsNothing(kind: ScalarKind)
    ensures var t := if kind == F32 then 100000000.0 else 100.0;
      && FlaggedCount(SerialMad(kind, t), TwoSpikes(23.0, 46.0), 500, 4) == 0
      && Cleaned(SerialMad(kind, t), TwoSpikes(23.0, 46.0), 500, 4) == TwoSpikes(23.0, 46.0)
  {
    var t := if kind == F32 then 100000000.0 else 100.0;
    var limit := SerialMadLimit(kind, t, 1.0, 1.0);
    assert limit >= 101.0 by {
      if kind != F32 {
        assert Narrow(kind, 100.0) == 100.0;
        assert Narrow(kind, 101.0) == 101.0;
      }
    }
    TwoSpikesPass(kind, t, 23.0, 46.0);
  }

  /**
   * For the unsigned types MadRfi's limit wraps: a channel of 8-bit
   * samples with median 20 and MAD 60 gets the limit 4 (260 mod 256), not
   * 260, so even its median lies above the limit.
   */
  lemma SerialMadLimitWraps()
    ensures SerialMadLimit(U8, 4.5, 60.0, 20.0) == 4.0
  {
    assert Narrow(U8, 4.5) == 4.0;
    assert Trunc(260.0) == 260;
  }

  /**
   * The wrap makes a constant 8-bit channel count as interference: four
   * samples of 10 with threshold 250 have median 10, MAD 1 and the
   * limit 4 (260 mod 256), so the channel is flagged, although resetting
   * it to its median changes nothing. Compare ConstantFloatChannelNotFlagged.
   */
  lemma WrappedLimitFlagsConstantChannel()
    ensures Threshold(SerialMad(U8, 250.0), Spiked(4, 0, 10.0, 10.0)) == 4.0
    ensures Flagged(TestOf(SerialMad(U8, 250.0)), Spiked(4, 0, 10.0, 10.0))
    ensures Reset(TestOf(SerialMad(U8, 250.0)), Spiked(4, 0, 10.0, 10.0)) == Spiked(4, 0, 10.0, 10.0)
  {
    var rule := SerialMad(U8, 250.0);
    var ch := Spiked(4, 0, 10.0, 10.0);
    assert SerialMadLimit(U8, 250.0, 1.0, 10.0) == 4.0 by {
      assert Narrow(U8, 250.0) == 250.0;
      assert Trunc(260.0) == 260;
    }
    SpikedChannelThreshold(U8, 250.0, 4, 0, 10.0, 10.0);
    TestOfImplements(rule);
    ImplementsAt(TestOf(rule), rule, ch);
    assert ch[0] > 4.0;
    assert seq(4, _ => 10.0) == ch;
  }
}
