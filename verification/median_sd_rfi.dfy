/**
 * MedianStandardDeviationRfi: per channel, the median (selected on a
 * scratch copy of the buffer) and the buffer's standard deviation of the
 * channel about it; a channel holding a sample strictly above
 * threshold * deviation + median is overwritten with its median.
 */
module MedianStdDevRfiStrategy {
  import opened Scalar
  import opened Wrappers
  import opened Metadata
  import opened Layout
  import opened OrderStatistics
  import opened Cleaning
  import opened TimeFrequencyBuffer
  import Detection

  const DefaultThreshold: real := 4.5

  class MedianStandardDeviationRfi {
    const kind: ScalarKind
    const threshold: real
    const temp: TimeFrequency
    /** The buffer's channel standard deviation about a reference value. */
    const stdDev: (seq<real>, real) -> real

    /** The scratch buffer has the element kind. */
    ghost predicate Valid()
      reads temp.data
    {
      temp.Valid() && temp.kind == kind
    }

    /** The rule this strategy applies to every channel. */
    function AsRule(): Rule {
      MedianStdDev(kind, threshold, stdDev)
    }

    /** get_threshold. */
    function GetThreshold(): real {
      threshold
    }

    /** A strategy for buffers of shape `info`, with a zero scratch buffer of that shape. */
    constructor (info: TimeFrequencyMetadata, elementKind: ScalarKind, t: real,
                 deviation: (seq<real>, real) -> real)
      ensures Valid() && kind == elementKind && GetThreshold() == t && stdDev == deviation
      ensures temp.metadata == info
      ensures fresh(temp) && fresh(temp.data)
    {
      kind := elementKind;
      threshold := t;
      temp := new TimeFrequency(info, elementKind);
      stdDev := deviation;
    }

    /**
     * does_channel_contain_rfi: the threshold times the channel's standard
     * deviation about `median`, converted to the element type, plus the
     * median, converted again; true iff some sample lies strictly above it.
     */
    method DoesChannelContainRfi(buffer: TimeFrequency, c: nat, median: real) returns (b: bool)
      requires buffer.Valid() && c < buffer.Channels()
      ensures b <==> Exceeds(buffer.Channel(c), StdDevLimit(kind, threshold, stdDev(buffer.Channel(c), median), median))
    {
      var spectra := buffer.Spectra();
      ChannelFits(buffer.Channels(), spectra, c);
      var start := c * spectra;
      assert buffer.data[start..start + spectra] == buffer.Channel(c);
      var sd := stdDev(buffer.data[start..start + spectra], median);
      var limit := StdDevLimit(kind, threshold, sd, median);
      b := Detection.ChannelContainsRfi(buffer, c, limit);
    }

    /**
     * The body of process_impl's channel loop for channel c, whose samples
     * the scratch buffer still holds unchanged.
     */
    method CleanChannelAt(buffer: TimeFrequency, c: nat, start: nat, ghost test: ChannelTest) returns (flagged: bool)
      requires Valid() && buffer.Valid() && buffer.kind == kind && buffer.data != temp.data
      requires buffer.Channels() == temp.Channels() && buffer.Spectra() == temp.Spectra() > 0
      requires c < buffer.Channels() && temp.Channel(c) == buffer.Channel(c)
      requires start == c * buffer.Spectra() && start + buffer.Spectra() <= buffer.data.Length
      requires Implements(test, AsRule())
      modifies buffer.data, temp.data
      ensures Valid() && buffer.Valid()
      ensures flagged <==> Flagged(test, old(buffer.Channel(c)))
      ensures buffer.data[..] == StepChannel(test, old(buffer.data[..]), buffer.Spectra(), c)
      ensures AgreeFrom(temp.data[..], old(temp.data[..]), start + buffer.Spectra())
    {
      ghost var ch := buffer.Channel(c);
      var median := temp.DestructiveChannelMedian(c);
      StdDevThreshold(kind, threshold, stdDev, ch);
      ImplementsAt(test, AsRule(), ch);
      flagged := DoesChannelContainRfi(buffer, c, median);
      if flagged {
        buffer.SetChannelToValue(c, median);
      }
    }

    /**
     * The channel loop has visited channels 0 .. c - 1 of `orig`: the buffer
     * holds them cleaned, `count` of them were flagged, and the scratch copy
     * still holds `orig` from channel c on.
     */
    ghost predicate Progress(buffer: TimeFrequency, orig: seq<real>, test: ChannelTest, c: nat, count: nat)
      reads temp.data, buffer.data
    {
      && Valid() && buffer.Valid() && buffer.kind == kind
      && buffer.data != temp.data
      && buffer.Channels() == temp.Channels() && buffer.Spectra() == temp.Spectra()
      && (buffer.Channels() == 0 || buffer.Spectra() > 0)
      && c <= buffer.Channels() && |orig| == buffer.data.Length && c * buffer.Spectra() <= |orig|
      && Implements(test, AsRule())
      && buffer.data[..] == PassUpTo(test, orig, buffer.Spectra(), c)
      && AgreeFrom(temp.data[..], orig, c * buffer.Spectra())
      && count == FlaggedUpTo(test, orig, buffer.Spectra(), c)
    }

    /**
     * One iteration of the channel loop, stated against the buffer as it
     * was before the loop: channel c is cleaned, and counted when flagged.
     */
    method CleanNextChannel(buffer: TimeFrequency, c: nat, ghost orig: seq<real>, ghost test: ChannelTest,
                            ghost count: nat) returns (flagged: bool)
      requires Progress(buffer, orig, test, c, count) && c < buffer.Channels()
      modifies buffer.data, temp.data
      ensures Progress(buffer, orig, test, c + 1, count + if flagged then 1 else 0)
    {
      var spectra := buffer.Spectra();
      ChannelFits(buffer.Channels(), spectra, c);
      var start := c * spectra;
      PassStep(test, orig, spectra, c);
      ChannelOfUnchangedSuffix(temp.data[..], orig, spectra, start, c);
      ghost var tempBefore := temp.data[..];
      flagged := CleanChannelAt(buffer, c, start, test);
      AgreeFromLater(tempBefore, orig, start, start + spectra);
      PreviousChannelEnd(spectra, c + 1);
      assert (c + 1) * spectra == start + spectra <= |orig|;
      assert buffer.data[..] == PassUpTo(test, orig, spectra, c + 1);
      assert AgreeFrom(temp.data[..], orig, (c + 1) * spectra);
    }

    /**
     * process_impl: copies the buffer into the scratch buffer (out_of_range
     * if the sample counts differ, nothing changed), then cleans every
     * channel; returns the number of channels flagged.
     */
    method ProcessImpl(buffer: TimeFrequency) returns (r: Result<nat>)
      requires Valid() && buffer.Valid() && buffer.kind == kind && buffer.data != temp.data
      requires buffer.data.Length == temp.data.Length ==>
        buffer.Channels() == temp.Channels() && buffer.Spectra() == temp.Spectra()
      requires temp.Channels() == 0 || temp.Spectra() > 0
      modifies buffer.data, temp.data
      ensures Valid() && buffer.Valid()
      ensures buffer.data.Length != temp.data.Length ==>
        r == Err(OutOfRange) && buffer.data[..] == old(buffer.data[..])
      ensures buffer.data.Length == temp.data.Length ==>
        && Processable(AsRule(), old(buffer.data[..]), buffer.Spectra(), buffer.Channels())
        && r == Ok(FlaggedCount(AsRule(), old(buffer.data[..]), buffer.Spectra(), buffer.Channels()))
        && buffer.data[..] == Cleaned(AsRule(), old(buffer.data[..]), buffer.Spectra(), buffer.Channels())
    {
      var copied := buffer.WriteDataToTimeFrequency(temp);
      if copied.Fail? {
        return Err(copied.error);
      }
      TestOfImplements(AsRule());
      var count := CleanChannels(buffer, buffer.data[..], TestOf(AsRule()));
      return Ok(count);
    }

    /** process_impl's channel loop, once the scratch buffer holds a copy of the buffer. */
    method CleanChannels(buffer: TimeFrequency, ghost orig: seq<real>, ghost test: ChannelTest) returns (count: nat)
      requires Valid() && buffer.Valid() && buffer.kind == kind && buffer.data != temp.data
      requires buffer.Channels() == temp.Channels() && buffer.Spectra() == temp.Spectra()
      requires buffer.Channels() == 0 || buffer.Spectra() > 0
      requires buffer.data[..] == orig && temp.data[..] == orig && Implements(test, AsRule())
      modifies buffer.data, temp.data
      ensures Valid() && buffer.Valid()
      ensures buffer.data[..] == PassUpTo(test, orig, buffer.Spectra(), buffer.Channels())
      ensures count == FlaggedUpTo(test, orig, buffer.Spectra(), buffer.Channels())
    {
      var channels := buffer.Channels();
      count := 0;
      var c := 0;
      while c < channels
        invariant Progress(buffer, orig, test, c, count)
      {
        var flagged := CleanNextChannel(buffer, c, orig, test, count);
        if flagged {
          count := count + 1;
        }
        c := c + 1;
      }
    }
  }
}
