/**
 * The shape record attached to every time-frequency buffer: how many
 * frequency channels, how many spectra (samples per channel), and the
 * frequency and timing description. No field is validated: zero channels
 * or zero spectra are accepted.
 */
module Metadata {

  const DefaultFrequencyChannels: nat := 4096
  const DefaultNumberOfSpectra: nat := 10000
  const DefaultFirstChannelFrequency: real := 1700.0
  const DefaultLastChannelFrequency: real := 2000.0
  const DefaultChannelWidth: real := (2000.0 - 1700.0) / 4096.0
  const DefaultSamplingTime: real := 0.00005

  datatype TimeFrequencyMetadata = TimeFrequencyMetadata(
    frequencyChannels: nat,
    numberOfSpectra: nat,
    firstChannelFrequency: real,
    lastChannelFrequency: real,
    channelWidth: real,
    samplingTime: real)
  {
    /** Field-by-field comparison: it coincides with equality of records. */
    function IsEqual(other: TimeFrequencyMetadata): (r: bool)
      ensures r <==> this == other
    {
      && frequencyChannels == other.frequencyChannels
      && numberOfSpectra == other.numberOfSpectra
      && firstChannelFrequency == other.firstChannelFrequency
      && lastChannelFrequency == other.lastChannelFrequency
      && channelWidth == other.channelWidth
      && samplingTime == other.samplingTime
    }
  }

  /** The default-constructed record: 4096 channels of 10000 spectra. */
  function Default(): (m: TimeFrequencyMetadata)
    ensures m.frequencyChannels == 4096 && m.numberOfSpectra == 10000
    ensures m.firstChannelFrequency == 1700.0 && m.lastChannelFrequency == 2000.0
    ensures m.channelWidth * 4096.0 == 300.0 && m.samplingTime == 0.00005
  {
    TimeFrequencyMetadata(
      DefaultFrequencyChannels, DefaultNumberOfSpectra,
      DefaultFirstChannelFrequency, DefaultLastChannelFrequency,
      DefaultChannelWidth, DefaultSamplingTime)
  }

  /**
   * Comparison is reflexive, and moving any one field of the default
   * record makes it compare unequal to the default.
   */
  lemma IsEqualDetectsEachField()
    ensures Default().IsEqual(Default())
    ensures !Default().IsEqual(Default().(frequencyChannels := DefaultFrequencyChannels + 1))
    ensures !Default().IsEqual(Default().(numberOfSpectra := DefaultNumberOfSpectra + 1))
    ensures !Default().IsEqual(Default().(firstChannelFrequency := DefaultFirstChannelFrequency + 1.0))
    ensures !Default().IsEqual(Default().(lastChannelFrequency := DefaultLastChannelFrequency + 1.0))
    ensures !Default().IsEqual(Default().(channelWidth := DefaultChannelWidth + 1.0))
    ensures !Default().IsEqual(Default().(samplingTime := DefaultSamplingTime + 1.0))
  {
  }
}
