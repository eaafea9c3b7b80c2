/** The read-only scan the MAD and standard-deviation strategies use to test one channel. */
module Detection {
  import opened TimeFrequencyBuffer
  import opened Cleaning

  /**
   * does_channel_contain_rfi: whether some sample of channel c lies
   * strictly above the threshold; the scan stops at the first such sample
   * and the buffer is not changed.
   */
  method ChannelContainsRfi(buffer: TimeFrequency, c: nat, threshold: real) returns (b: bool)
    requires buffer.Valid() && c < buffer.Channels()
    ensures b <==> Exceeds(buffer.Channel(c), threshold)
  {
    var s := 0;
    while s < buffer.Spectra()
      invariant s <= buffer.Spectra()
      invariant forall j :: 0 <= j < s ==> buffer.Channel(c)[j] <= threshold
    {
      if buffer.Sample(c, s) > threshold {
        return true;
      }
      s := s + 1;
    }
    return false;
  }
}
