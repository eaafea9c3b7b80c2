/**
 * MadParallelRfi: the MadRfi scheme with a deviation vector of its own for
 * every channel, a MAD floor of 1e-6 for float buffers, and the threshold
 * multiplied into the MAD before the conversion to the element type. The
 * channels are independent of one another, so the parallel loop is
 * modelled as the sequential loop over channels.
 */
module MadParallelRfiStrategy {
  import opened Scalar
  import opened Wrappers
  import opened Metadata
  import opened Layout
  import opened OrderStatistics
  import opened Cleaning
  import opened TimeFrequencyBuffer
  import Selection
  import Detection

  const DefaultThreshold: real := 10.0

  class MadParallelRfi {
    const kind: ScalarKind
    const threshold: real
    const temp: TimeFrequency
    const medianOffset: nat

    /** The scratch buffer has the element kind and the offset is half its spectra. */
    ghost predicate Valid()
      reads temp.data
    {
      temp.Valid() && temp.kind == kind && medianOffset == temp.Spectra() / 2
    }

    /** The rule this strategy applies to every channel. */
    function AsRule(): Rule {
      ParallelMad(kind, threshold)
    }

    /** get_threshold. */
    function GetThreshold(): real {
      threshold
    }

    /** A strategy for buffers of shape `info`: a zero scratch buffer of that shape and the offset spectra / 2. */
    constructor (info: TimeFrequencyMetadata, elementKind: ScalarKind, t: real)
      ensures Valid() && kind == elementKind && GetThreshold() == t
      ensures temp.metadata == info && medianOffset == info.numberOfSpectra / 2
      ensures fresh(temp) && fresh(temp.data)
    {
      kind := elementKind;
      threshold := t;
      temp := new TimeFrequency(info, elementKind);
      medianOffset := info.numberOfSpectra / 2;
    }

    /**
     * calculate_mad for the unsigned kinds: the distances from the median,
     * computed by subtracting the smaller from the larger so that nothing
     * wraps, and their order statistic at spectra / 2, or 1 if that is 0.
     */
    method CalculateMadIntegral(buffer: TimeFrequency, c: nat, median: real) returns (mad: real)
      requires Valid() && buffer.Valid() && buffer.kind == kind && kind != F32
      requires c < buffer.Channels() && buffer.Spectra() == temp.Spectra() > 0
      requires InRange(kind, median)
      ensures mad == MadOf(buffer.Channel(c), median, MadFloor(kind))
      ensures InRange(kind, mad) && mad >= 1.0
    {
      var deviations := OrderedDeviations(buffer, c, median);
      Selection.NthElement(deviations, 0, medianOffset, buffer.Spectra());
      var selected := deviations[medianOffset];
      if selected > 0.0 {
        mad := selected;
      } else {
        mad := 1.0;
      }
      buffer.ChannelInRange(c);
      MadOfBounds(kind, buffer.Channel(c), median, MadFloor(kind));
    }

    /**
     * The local deviation vector of the integral calculate_mad: each
     * distance is the larger of sample and median minus the smaller, which
     * is the absolute difference.
     */
    method OrderedDeviations(buffer: TimeFrequency, c: nat, median: real) returns (deviations: array<real>)
      requires buffer.Valid() && c < buffer.Channels()
      ensures fresh(deviations) && deviations.Length == buffer.Spectra()
      ensures deviations[0..buffer.Spectra()] == Deviations(buffer.Channel(c), median)
    {
      var n := buffer.Spectra();
      ghost var ch := buffer.Channel(c);
      deviations := new real[n];
      var i := 0;
      while i < n
        invariant i <= n
        invariant forall j :: 0 <= j < i ==> deviations[j] == Abs(ch[j] - median)
      {
        var x := buffer.Sample(c, i);
        deviations[i] := if x > median then x - median else median - x;
        i := i + 1;
      }
      assert deviations[0..n] == Deviations(ch, median);
    }

    /**
     * calculate_mad for float: the absolute distances from the median and
     * their order statistic at spectra / 2, or 1e-6 if that is not positive.
     */
    method CalculateMadFloat(buffer: TimeFrequency, c: nat, median: real) returns (mad: real)
      requires Valid() && buffer.Valid() && buffer.kind == kind && kind == F32
      requires c < buffer.Channels() && buffer.Spectra() == temp.Spectra() > 0
      ensures mad == MadOf(buffer.Channel(c), median, MadFloor(kind))
      ensures mad > 0.0
    {
      var n := buffer.Spectra();
      ghost var ch := buffer.Channel(c);
      var deviations := new real[n];
      var i := 0;
      while i < n
        invariant i <= n
        invariant forall j :: 0 <= j < i ==> deviations[j] == Abs(ch[j] - median)
      {
        deviations[i] := Abs(buffer.Sample(c, i) - median);
        i := i + 1;
      }
      assert deviations[0..n] == Deviations(ch, median);
      Selection.NthElement(deviations, 0, medianOffset, n);
      var selected := deviations[medianOffset];
      if selected > 0.0 {
        mad := selected;
      } else {
        mad := 1.0 / 1000000.0;
      }
    }

    /**
     * The body of process_impl's channel loop for channel c, whose samples
     * the scratch buffer still holds unchanged.
     */
    method CleanChannelAt(buffer: TimeFrequency, c: nat, start: nat, ghost test: ChannelTest) returns (flagged: bool)
      requires Valid() && buffer.Valid() && buffer.kind == kind && buffer.data != temp.data
      requires buffer.Channels() == temp.Channels() && buffer.Spectra() == temp.Spectra() > 0
      requires c < buffer.Channels() && temp.Channel(c) == buffer.Channel(c)
      requires start == c * buffer.Spectra() && start + buffer.Spectra() <= buffer.data.Length
      requires Implements(test, AsRule())
      modifies buffer.data, temp.data
      ensures Valid() && buffer.Valid()
      ensures flagged <==> Flagged(test, old(buffer.Channel(c)))
      ensures buffer.data[..] == StepChannel(test, old(buffer.data[..]), buffer.Spectra(), c)
      ensures AgreeFrom(temp.data[..], old(temp.data[..]), start + buffer.Spectra())
    {
      ghost var ch := buffer.Channel(c);
      var median := temp.DestructiveChannelMedian(c);
      var mad;
      if kind == F32 {
        mad := CalculateMadFloat(buffer, c, median);
      } else {
        mad := CalculateMadIntegral(buffer, c, median);
      }
      var limit := ParallelMadLimit(kind, threshold, mad, median);
      ParallelMadThreshold(kind, threshold, ch);
      ImplementsAt(test, AsRule(), ch);
      flagged := Detection.ChannelContainsRfi(buffer, c, limit);
      if flagged {
        buffer.SetChannelToValue(c, median);
      }
    }

    /**
     * The channel loop has visited channels 0 .. c - 1 of `orig`: the buffer
     * holds them cleaned, `count` of them were flagged, and the scratch copy
     * still holds `orig` from channel c on.
     */
    ghost predicate Progress(buffer: TimeFrequency, orig: seq<real>, test: ChannelTest, c: nat, count: nat)
      reads temp.data, buffer.data
    {
      && Valid() && buffer.Valid() && buffer.kind == kind
      && buffer.data != temp.data
      && buffer.Channels() == temp.Channels() && buffer.Spectra() == temp.Spectra()
      && (buffer.Channels() == 0 || buffer.Spectra() > 0)
      && c <= buffer.Channels() && |orig| == buffer.data.Length && c * buffer.Spectra() <= |orig|
      && Implements(test, AsRule())
      && buffer.data[..] == PassUpTo(test, orig, buffer.Spectra(), c)
      && AgreeFrom(temp.data[..], orig, c * buffer.Spectra())
      && count == FlaggedUpTo(test, orig, buffer.Spectra(), c)
    }

    /**
     * One iteration of the channel loop, stated against the buffer as it
     * was before the loop: channel c is cleaned, and counted when flagged.
     */
    method CleanNextChannel(buffer: TimeFrequency, c: nat, ghost orig: seq<real>, ghost test: ChannelTest,
                            ghost count: nat) returns (flagged: bool)
      requires Progress(buffer, orig, test, c, count) && c < buffer.Channels()
      modifies buffer.data, temp.data
      ensures Progress(buffer, orig, test, c + 1, count + if flagged then 1 else 0)
    {
      var spectra := buffer.Spectra();
      ChannelFits(buffer.Channels(), spectra, c);
      var start := c * spectra;
      PassStep(test, orig, spectra, c);
      ChannelOfUnchangedSuffix(temp.data[..], orig, spectra, start, c);
      ghost var tempBefore := temp.data[..];
      flagged := CleanChannelAt(buffer, c, start, test);
      AgreeFromLater(tempBefore, orig, start, start + spectra);
      PreviousChannelEnd(spectra, c + 1);
      assert (c + 1) * spectra == start + spectra <= |orig|;
      assert buffer.data[..] == PassUpTo(test, orig, spectra, c + 1);
      assert AgreeFrom(temp.data[..], orig, (c + 1) * spectra);
    }

    /**
     * process_impl: copies the buffer into the scratch buffer (out_of_range
     * if the sample counts differ, nothing changed), then cleans every
     * channel; returns the number of channels flagged.
     */
    method ProcessImpl(buffer: TimeFrequency) returns (r: Result<nat>)
      requires Valid() && buffer.Valid() && buffer.kind == kind && buffer.data != temp.data
      requires buffer.data.Length == temp.data.Length ==>
        buffer.Channels() == temp.Channels() && buffer.Spectra() == temp.Spectra()
      requires temp.Channels() == 0 || temp.Spectra() > 0
      modifies buffer.data, temp.data
      ensures Valid() && buffer.Valid()
      ensures buffer.data.Length != temp.data.Length ==>
        r == Err(OutOfRange) && buffer.data[..] == old(buffer.data[..])
      ensures buffer.data.Length == temp.data.Length ==>
        && Processable(AsRule(), old(buffer.data[..]), buffer.Spectra(), buffer.Channels())
        && r == Ok(FlaggedCount(AsRule(), old(buffer.data[..]), buffer.Spectra(), buffer.Channels()))
        && buffer.data[..] == Cleaned(AsRule(), old(buffer.data[..]), buffer.Spectra(), buffer.Channels())
    {
      var copied := buffer.WriteDataToTimeFrequency(temp);
      if copied.Fail? {
        return Err(copied.error);
      }
      TestOfImplements(AsRule());
      var count := CleanChannels(buffer, buffer.data[..], TestOf(AsRule()));
      return Ok(count);
    }

    /** process_impl's channel loop, once the scratch buffer holds a copy of the buffer. */
    method CleanChannels(buffer: TimeFrequency, ghost orig: seq<real>, ghost test: ChannelTest) returns (count: nat)
      requires Valid() && buffer.Valid() && buffer.kind == kind && buffer.data != temp.data
      requires buffer.Channels() == temp.Channels() && buffer.Spectra() == temp.Spectra()
      requires buffer.Channels() == 0 || buffer.Spectra() > 0
      requires buffer.data[..] == orig && temp.data[..] == orig && Implements(test, AsRule())
      modifies buffer.data, temp.data
      ensures Valid() && buffer.Valid()
      ensures buffer.data[..] == PassUpTo(test, orig, buffer.Spectra(), buffer.Channels())
      ensures count == FlaggedUpTo(test, orig, buffer.Spectra(), buffer.Channels())
    {
      var channels := buffer.Channels();
      count := 0;
      var c := 0;
      while c < channels
        invariant Progress(buffer, orig, test, c, count)
      {
        var flagged := CleanNextChannel(buffer, c, orig, test, count);
        if flagged {
          count := count + 1;
        }
        c := c + 1;
      }
    }
  }
}
