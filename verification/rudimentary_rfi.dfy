/**
 * RudimentaryRfi (float buffers only): three passes over the buffer.
 * calculate_median finds each channel's median on a copy of the buffer by
 * repeated minimum extraction, calculate_std the root mean square distance
 * of each channel from its median, and clean_data flags and resets every
 * channel holding a sample strictly above threshold * deviation + median.
 */
module RudimentaryRfiStrategy {
  import opened Scalar
  import opened Layout
  import opened OrderStatistics
  import opened Cleaning
  import opened TimeFrequencyBuffer

  const DefaultThreshold: real := 4.5

  /** `m` copies of the sentinel. */
  function Sentinels(m: nat): (r: seq<real>)
    ensures |r| == m
  {
    seq(m, _ => Sentinel)
  }

  /** `v` is no larger than any capped sample of `rest`. */
  ghost predicate LowerBound(v: real, rest: seq<real>) {
    forall k :: 0 <= k < |rest| ==> v <= Cap(rest[k])
  }

  /** Replacing one element changes the multiset by exactly that element. */
  lemma MultisetReplace(s: seq<real>, i: nat, v: real)
    requires i < |s|
    ensures multiset(s[i := v]) + multiset{s[i]} == multiset(s) + multiset{v}
  {
    assert s == s[..i] + [s[i]] + s[i + 1..];
    assert s[i := v] == s[..i] + [v] + s[i + 1..];
  }

  /** Appending a value no smaller than the last keeps a sequence sorted. */
  lemma SortedAppend(s: seq<real>, v: real)
    requires Sorted(s) && (|s| > 0 ==> s[|s| - 1] <= v)
    ensures Sorted(s + [v])
  {
    var t := s + [v];
    forall i, j | 0 <= i < j < |t| ensures t[i] <= t[j] {
      if j == |s| && i < |s| {
        assert s[i] <= s[|s| - 1];
      }
    }
  }

  /**
   * One pass of the minimum extraction keeps the bookkeeping: the values
   * extracted so far (`taken`) and the capped samples left (`rest`)
   * together are the capped channel `x` plus one sentinel per pass, and
   * the value extracted bounds every sample left from below.
   */
  lemma ExtractionStep(taken: seq<real>, rest: seq<real>, x: seq<real>, m: nat, min: real, arg: nat)
    requires arg < |rest| && min == Cap(rest[arg]) && LowerBound(min, rest)
    requires multiset(taken) + multiset(Capped(rest)) == multiset(x + Sentinels(m))
    ensures LowerBound(min, rest[arg := Sentinel])
    ensures multiset(taken + [min]) + multiset(Capped(rest[arg := Sentinel]))
         == multiset(x + Sentinels(m + 1))
  {
    var c := Capped(rest);
    assert Capped(rest[arg := Sentinel]) == c[arg := Sentinel];
    MultisetReplace(c, arg, Sentinel);
    assert x + Sentinels(m + 1) == (x + Sentinels(m)) + [Sentinel];
  }

  /**
   * The bookkeeping of the minimum extraction: the values extracted so far
   * (`taken`) ascend, none exceeds a capped sample left in `rest`, and
   * together with the capped samples left they are the capped channel `x`
   * plus one sentinel per pass.
   */
  ghost predicate Extraction(taken: seq<real>, rest: seq<real>, x: seq<real>) {
    && Sorted(taken)
    && (|taken| > 0 ==> LowerBound(taken[|taken| - 1], rest))
    && multiset(taken) + multiset(Capped(rest)) == multiset(x + Sentinels(|taken|))
  }

  /**
   * After the passes, the extracted values are the smallest capped
   * samples of the channel, in order.
   */
  lemma ExtractedAreSmallest(taken: seq<real>, rest: seq<real>, x: seq<real>)
    requires Extraction(taken, rest, x) && 0 < |taken| <= |x|
    requires forall i :: 0 <= i < |x| ==> x[i] <= Sentinel
    ensures forall k :: 0 <= k < |taken| ==> taken[k] == KthSmallest(x, k)
  {
    var left := multiset(Capped(rest));
    forall i, v | 0 <= i < |taken| && v in left ensures taken[i] <= v {
      var j :| 0 <= j < |rest| && Capped(rest)[j] == v;
      assert taken[i] <= taken[|taken| - 1];
    }
    forall k | 0 <= k < |taken| ensures taken[k] == KthSmallest(x, k) {
      SortedPrefixIsSmallest(taken, left, x + Sentinels(|taken|), k);
      KthSmallestAppendLarge(x, Sentinels(|taken|), k);
    }
  }

  /**
   * The per-channel statistics clean_data reads agree with a channel test:
   * entry c of `median` is the test's median of channel c of `s`, and the
   * baseline limit built from entry c of `stdDev` is the test's limit.
   */
  ghost predicate StatsFollow(test: ChannelTest, t: real, s: seq<real>, spectra: nat,
                              median: seq<real>, stdDev: seq<real>)
  {
    && |median| == |stdDev|
    && forall c :: 0 <= c < |median| && c * spectra + spectra <= |s| ==>
         && median[c] == test.median(ChannelOf(s, spectra, c))
         && BaselineLimit(t, stdDev[c], median[c]) == test.limit(ChannelOf(s, spectra, c))
  }

  /** The statistics computed by the first two passes agree with any implementation of the baseline rule. */
  lemma StatsFollowRule(test: ChannelTest, t: real, sqrt: real -> real, s: seq<real>, spectra: nat,
                        median: seq<real>, stdDev: seq<real>)
    requires Implements(test, Baseline(t, sqrt)) && |median| == |stdDev|
    requires |median| == 0 || spectra >= 2
    requires forall c :: 0 <= c < |median| && c * spectra + spectra <= |s| ==>
      && median[c] == BaselineMedian(ChannelOf(s, spectra, c))
      && stdDev[c] == StdDevAbout(sqrt, ChannelOf(s, spectra, c), median[c])
    ensures StatsFollow(test, t, s, spectra, median, stdDev)
  {
    forall c | 0 <= c < |median| && c * spectra + spectra <= |s|
      ensures median[c] == test.median(ChannelOf(s, spectra, c))
      ensures BaselineLimit(t, stdDev[c], median[c]) == test.limit(ChannelOf(s, spectra, c))
    {
      var ch := ChannelOf(s, spectra, c);
      BaselineThreshold(t, sqrt, ch);
      ImplementsAt(test, Baseline(t, sqrt), ch);
    }
  }

  class RudimentaryRfi {
    const threshold: real
    /** The square root calculate_std applies. */
    const sqrt: real -> real

    /** The rule this strategy applies to every channel. */
    function AsRule(): Rule {
      Baseline(threshold, sqrt)
    }

    constructor (t: real, root: real -> real)
      ensures threshold == t && sqrt == root
    {
      threshold := t;
      sqrt := root;
    }

    /**
     * One pass of calculate_median's extraction on channel c: the smallest
     * sample below the sentinel (the first one on ties), or the sentinel
     * and position 0 if there is none; the sample at that position becomes
     * the sentinel.
     */
    static method ExtractMin(chunk: TimeFrequency, c: nat) returns (min: real, ghost arg: nat)
      requires chunk.Valid() && chunk.kind == F32 && c < chunk.Channels() && chunk.Spectra() > 0
      modifies chunk.data
      ensures chunk.Valid()
      ensures arg < chunk.Spectra() && min == Cap(old(chunk.Channel(c))[arg])
      ensures LowerBound(min, old(chunk.Channel(c)))
      ensures SampleIndex(chunk.Spectra(), c, arg) < chunk.data.Length
      ensures chunk.data[..] == old(chunk.data[..])[SampleIndex(chunk.Spectra(), c, arg) := Sentinel]
    {
      var n := chunk.Spectra();
      ghost var ch := chunk.Channel(c);
      min := Sentinel;
      var a := 0;
      var i := 0;
      while i < n
        invariant i <= n && a < n
        invariant min <= Sentinel && (min < Sentinel ==> min == ch[a]) && (min == Sentinel ==> a == 0)
        invariant forall k :: 0 <= k < i ==> min <= Cap(ch[k])
      {
        if min > chunk.Sample(c, i) {
          min := chunk.Sample(c, i);
          a := i;
        }
        i := i + 1;
      }
      chunk.SetSample(c, a, Sentinel);
      arg := a;
    }

    /**
     * One pass of calculate_median's loop on channel c, given the values
     * `taken` by the earlier passes: the bookkeeping of ExtractionStep is
     * kept with the value extracted appended, and only channel c of the
     * copy changes.
     */
    static method ExtractNext(chunk: TimeFrequency, c: nat, ghost taken: seq<real>, ghost x: seq<real>)
      returns (min: real)
      requires chunk.Valid() && chunk.kind == F32 && c < chunk.Channels() && chunk.Spectra() > 0
      requires Extraction(taken, chunk.Channel(c), x)
      modifies chunk.data
      ensures chunk.Valid()
      ensures Extraction(taken + [min], chunk.Channel(c), x)
      ensures c * chunk.Spectra() + chunk.Spectra() <= chunk.data.Length
      ensures AgreeFrom(chunk.data[..], old(chunk.data[..]), c * chunk.Spectra() + chunk.Spectra())
    {
      var n := chunk.Spectra();
      ChannelFits(chunk.Channels(), n, c);
      ghost var rest := chunk.Channel(c);
      ghost var data := chunk.data[..];
      ghost var arg;
      min, arg := ExtractMin(chunk, c);
      ChannelOfUpdate(data, n, c, arg, Sentinel);
      assert chunk.Channel(c) == rest[arg := Sentinel];
      ExtractionStep(taken, rest, x, |taken|, min, arg);
      SortedAppend(taken, min);
    }

    /**
     * calculate_median's extraction loop on channel c of its copy:
     * spectra / 2 + 1 passes, pass k writing temp[k]; temp then holds the
     * smallest capped samples of the channel in order. Only channel c of
     * the copy changes.
     */
    static method ExtractPasses(chunk: TimeFrequency, c: nat, temp: array<real>)
      requires chunk.Valid() && chunk.kind == F32 && c < chunk.Channels() && chunk.Spectra() >= 2
      requires temp.Length == chunk.Spectra() && temp != chunk.data
      modifies chunk.data, temp
      ensures chunk.Valid()
      ensures forall k :: 0 <= k <= chunk.Spectra() / 2 ==> temp[k] == KthSmallest(Capped(old(chunk.Channel(c))), k)
      ensures AgreeFrom(chunk.data[..], old(chunk.data[..]), c * chunk.Spectra() + chunk.Spectra())
    {
      var n := chunk.Spectra();
      ghost var x := Capped(chunk.Channel(c));
      ChannelFits(chunk.Channels(), n, c);
      var iter := 0;
      ghost var taken: seq<real> := [];
      while iter < n / 2 + 1
        invariant iter <= n / 2 + 1 && chunk.Valid()
        invariant AgreeFrom(chunk.data[..], old(chunk.data[..]), c * n + n)
        invariant |taken| == iter && temp[..iter] == taken
        invariant Extraction(taken, chunk.Channel(c), x)
      {
        var min := ExtractNext(chunk, c, taken, x);
        temp[iter] := min;
        taken := taken + [min];
        iter := iter + 1;
      }
      ExtractedAreSmallest(taken, chunk.Channel(c), x);
    }

    /**
     * calculate_median's work on channel c of its copy: the extraction
     * passes into a scratch vector, then the mean of its entries at
     * spectra / 2 and spectra / 2 - 1.
     */
    static method ChannelMedian(chunk: TimeFrequency, c: nat) returns (m: real)
      requires chunk.Valid() && chunk.kind == F32 && c < chunk.Channels() && chunk.Spectra() >= 2
      modifies chunk.data
      ensures chunk.Valid()
      ensures m == BaselineMedian(old(chunk.Channel(c)))
      ensures AgreeFrom(chunk.data[..], old(chunk.data[..]), c * chunk.Spectra() + chunk.Spectra())
    {
      var n := chunk.Spectra();
      var temp := new real[n];
      ExtractPasses(chunk, c, temp);
      m := (temp[n / 2] + temp[n / 2 - 1]) / 2.0;
    }

    /**
     * calculate_median: every channel's baseline median, found on a copy of
     * the buffer (the buffer is taken by value and left as it was).
     */
    static method CalculateMedian(buffer: TimeFrequency, median: array<real>)
      requires buffer.Valid() && buffer.kind == F32 && median.Length == buffer.Channels()
      requires buffer.Channels() == 0 || buffer.Spectra() >= 2
      requires median != buffer.data
      modifies median
      ensures forall c :: 0 <= c < buffer.Channels() ==> median[c] == BaselineMedian(buffer.Channel(c))
    {
      var chunk := new TimeFrequency.Copy(buffer);
      var channels, spectra := buffer.Channels(), buffer.Spectra();
      var c := 0;
      while c < channels
        invariant c <= channels && chunk.Valid() && chunk.kind == F32 && chunk.metadata == buffer.metadata
        invariant AgreeFrom(chunk.data[..], buffer.data[..], c * spectra)
        invariant forall j :: 0 <= j < c ==> median[j] == BaselineMedian(buffer.Channel(j))
      {
        ChannelFits(channels, spectra, c);
        ChannelOfUnchangedSuffix(chunk.data[..], buffer.data[..], spectra, c * spectra, c);
        median[c] := ChannelMedian(chunk, c);
        assert (c + 1) * spectra == c * spectra + spectra;
        c := c + 1;
      }
    }

    /** The inner loop of calculate_std: the squared distances of channel c's samples from m, summed in order. */
    static method ChannelSumSquares(chunk: TimeFrequency, c: nat, m: real) returns (sum: real)
      requires chunk.Valid() && c < chunk.Channels()
      ensures sum == SumSquares(chunk.Channel(c), m)
    {
      ghost var ch := chunk.Channel(c);
      sum := 0.0;
      var s := 0;
      while s < chunk.Spectra()
        invariant s <= chunk.Spectra()
        invariant sum == SumSquares(ch[..s], m)
      {
        assert ch[..s + 1][..s] == ch[..s];
        var d := chunk.Sample(c, s) - m;
        sum := sum + d * d;
        s := s + 1;
      }
      assert ch[..s] == ch;
    }

    /** calculate_std: every channel's root mean square distance from its median. */
    method CalculateStd(chunk: TimeFrequency, median: array<real>, stdDev: array<real>)
      requires chunk.Valid() && median.Length == chunk.Channels() && stdDev.Length == chunk.Channels()
      requires chunk.Channels() == 0 || chunk.Spectra() > 0
      requires stdDev != chunk.data && stdDev != median
      modifies stdDev
      ensures forall c :: 0 <= c < chunk.Channels() ==>
        stdDev[c] == StdDevAbout(sqrt, chunk.Channel(c), median[c])
    {
      var c := 0;
      while c < chunk.Channels()
        invariant c <= chunk.Channels()
        invariant forall j :: 0 <= j < c ==> stdDev[j] == StdDevAbout(sqrt, chunk.Channel(j), median[j])
      {
        var sum := ChannelSumSquares(chunk, c, median[c]);
        stdDev[c] := sqrt(sum / chunk.Spectra() as real);
        c := c + 1;
      }
    }

    /**
     * clean_data's scan of channel c: every sample is compared with
     * threshold * sd + m, without stopping at the first one above it.
     */
    method ScanChannel(chunk: TimeFrequency, c: nat, m: real, sd: real) returns (flag: bool)
      requires chunk.Valid() && c < chunk.Channels()
      ensures flag <==> Exceeds(chunk.Channel(c), BaselineLimit(threshold, sd, m))
    {
      flag := false;
      var s := 0;
      while s < chunk.Spectra()
        invariant s <= chunk.Spectra()
        invariant flag <==> exists j :: 0 <= j < s && chunk.Channel(c)[j] > BaselineLimit(threshold, sd, m)
      {
        if chunk.Sample(c, s) > threshold * sd + m {
          flag := true;
        }
        s := s + 1;
      }
    }

    /**
     * One iteration of clean_data's channel loop, stated against the
     * buffer as it was before the loop: channel c is scanned and, when
     * flagged, every sample of it set to its median.
     */
    method CleanNextChannel(chunk: TimeFrequency, c: nat, median: real, sd: real,
                            ghost orig: seq<real>, ghost test: ChannelTest) returns (flagged: bool)
      requires chunk.Valid() && chunk.kind == F32 && c < chunk.Channels()
      requires c * chunk.Spectra() + chunk.Spectra() <= |orig|
      requires median == test.median(ChannelOf(orig, chunk.Spectra(), c))
      requires BaselineLimit(threshold, sd, median) == test.limit(ChannelOf(orig, chunk.Spectra(), c))
      requires chunk.data[..] == PassUpTo(test, orig, chunk.Spectra(), c)
      modifies chunk.data
      ensures chunk.Valid()
      ensures chunk.data[..] == PassUpTo(test, orig, chunk.Spectra(), c + 1)
      ensures FlaggedUpTo(test, orig, chunk.Spectra(), c + 1)
           == FlaggedUpTo(test, orig, chunk.Spectra(), c) + if flagged then 1 else 0
    {
      PassStep(test, orig, chunk.Spectra(), c);
      flagged := ScanChannel(chunk, c, median, sd);
      if flagged {
        chunk.SetChannelToValue(c, median);
      }
    }

    /**
     * clean_data: every channel in order, compared with its own statistics
     * from the first two passes; returns the number of channels flagged.
     */
    method CleanData(chunk: TimeFrequency, median: array<real>, stdDev: array<real>,
                     ghost orig: seq<real>, ghost test: ChannelTest) returns (count: nat)
      requires chunk.Valid() && chunk.kind == F32 && chunk.data[..] == orig
      requires median.Length == chunk.Channels() && median != chunk.data && stdDev != chunk.data
      requires StatsFollow(test, threshold, orig, chunk.Spectra(), median[..], stdDev[..])
      modifies chunk.data
      ensures chunk.Valid()
      ensures chunk.data[..] == PassUpTo(test, orig, chunk.Spectra(), chunk.Channels())
      ensures count == FlaggedUpTo(test, orig, chunk.Spectra(), chunk.Channels())
    {
      var channels, spectra := chunk.Channels(), chunk.Spectra();
      count := 0;
      var c := 0;
      while c < channels
        invariant c <= channels && chunk.Valid()
        invariant chunk.data[..] == PassUpTo(test, orig, spectra, c)
        invariant count == FlaggedUpTo(test, orig, spectra, c)
      {
        ChannelFits(channels, spectra, c);
        assert median[..][c] == median[c] && stdDev[..][c] == stdDev[c];
        var flagged := CleanNextChannel(chunk, c, median[c], stdDev[c], orig, test);
        if flagged {
          count := count + 1;
        }
        c := c + 1;
      }
    }

    /**
     * process_impl: the medians, the deviations, then the cleaning pass;
     * returns the number of channels flagged. Every channel needs at least
     * two samples, since the median reads the two middle extractions.
     */
    method ProcessImpl(buffer: TimeFrequency) returns (count: nat)
      requires buffer.Valid() && buffer.kind == F32
      requires buffer.Channels() == 0 || buffer.Spectra() >= 2
      modifies buffer.data
      ensures buffer.Valid()
      ensures Processable(AsRule(), old(buffer.data[..]), buffer.Spectra(), buffer.Channels())
      ensures count == FlaggedCount(AsRule(), old(buffer.data[..]), buffer.Spectra(), buffer.Channels())
      ensures buffer.data[..] == Cleaned(AsRule(), old(buffer.data[..]), buffer.Spectra(), buffer.Channels())
    {
      var median := new real[buffer.Channels()];
      var stdDev := new real[buffer.Channels()];
      CalculateMedian(buffer, median);
      CalculateStd(buffer, median, stdDev);
      TestOfImplements(AsRule());
      ComputedStatsFollow(buffer, median, stdDev, TestOf(AsRule()));
      count := CleanData(buffer, median, stdDev, buffer.data[..], TestOf(AsRule()));
    }

    /** The arrays filled by the first two passes hold the statistics of the rule. */
    lemma ComputedStatsFollow(buffer: TimeFrequency, median: array<real>, stdDev: array<real>, test: ChannelTest)
      requires buffer.Valid() && median.Length == stdDev.Length == buffer.Channels()
      requires buffer.Channels() == 0 || buffer.Spectra() >= 2
      requires Implements(test, AsRule())
      requires forall c :: 0 <= c < buffer.Channels() ==> median[c] == BaselineMedian(buffer.Channel(c))
      requires forall c :: 0 <= c < buffer.Channels() ==>
        stdDev[c] == StdDevAbout(sqrt, buffer.Channel(c), median[c])
      ensures StatsFollow(test, threshold, buffer.data[..], buffer.Spectra(), median[..], stdDev[..])
    {
      var s, spectra := buffer.data[..], buffer.Spectra();
      forall c | 0 <= c < median.Length && c * spectra + spectra <= |s|
        ensures median[..][c] == BaselineMedian(ChannelOf(s, spectra, c))
        ensures stdDev[..][c] == StdDevAbout(sqrt, ChannelOf(s, spectra, c), median[..][c])
      {
        assert buffer.Channel(c) == ChannelOf(s, spectra, c);
      }
      StatsFollowRule(test, threshold, sqrt, s, spectra, median[..], stdDev[..]);
    }
  }
}
