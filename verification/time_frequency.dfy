/**
 * `TimeFrequency<DataType>`: a fixed-shape, heap-allocated, channel-major
 * sample buffer. The metadata and the array are fixed at construction;
 * the samples are updated in place.
 */
module TimeFrequencyBuffer {
  import opened Scalar
  import opened Wrappers
  import opened Metadata
  import opened Layout
  import opened OrderStatistics
  import Selection

  /** Absolute per-sample tolerance of the floating-point comparison (1e-6). */
  const Tolerance: real := 1.0 / 1000000.0

  /** `std::copy` of the first n elements of src into dst; src may be dst itself. */
  method CopyPrefix(src: array<real>, dst: array<real>, n: nat)
    requires n <= src.Length && n <= dst.Length
    modifies dst
    ensures dst[..n] == old(src[..n])
    ensures dst[n..] == old(dst[n..])
    ensures src != dst ==> src[..] == old(src[..])
  {
    var i := 0;
    while i < n
      invariant i <= n
      invariant forall k :: 0 <= k < i ==> dst[k] == old(src[k])
      invariant forall k :: i <= k < dst.Length ==> dst[k] == old(dst[k])
      invariant src != dst ==> src[..] == old(src[..])
    {
      dst[i] := src[i];
      i := i + 1;
    }
  }

  /** Permuting one segment in place and leaving the rest alone keeps every sample in range. */
  lemma AllInRangeSplice(kind: ScalarKind, before: seq<real>, after: seq<real>, lo: nat, hi: nat)
    requires lo <= hi <= |before| == |after|
    requires AllInRange(kind, before)
    requires after[..lo] == before[..lo] && after[hi..] == before[hi..]
    requires multiset(after[lo..hi]) == multiset(before[lo..hi])
    ensures AllInRange(kind, after)
  {
    forall i | 0 <= i < |after| ensures InRange(kind, after[i]) {
      if i < lo {
        assert after[i] == after[..lo][i];
      } else if i >= hi {
        assert after[i] == after[hi..][i - hi];
      } else {
        assert after[i] == after[lo..hi][i - lo];
        assert after[i] in multiset(before[lo..hi]);
        var j :| 0 <= j < hi - lo && before[lo..hi][j] == after[i];
        assert before[lo + j] == after[i];
      }
    }
  }

  /** Two sample sequences agree to within `Tolerance` at every index. */
  predicate WithinTolerance(a: seq<real>, b: seq<real>) {
    |a| == |b| && forall i :: 0 <= i < |a| ==> Abs(a[i] - b[i]) <= Tolerance
  }

  class TimeFrequency {
    const metadata: TimeFrequencyMetadata
    const kind: ScalarKind
    const data: array<real>

    /** The array holds channels * spectra samples, each a value of the element type. */
    ghost predicate Valid()
      reads data
    {
      && data.Length == metadata.frequencyChannels * metadata.numberOfSpectra
      && AllInRange(kind, data[..])
    }

    function Channels(): nat {
      metadata.frequencyChannels
    }

    function Spectra(): nat {
      metadata.numberOfSpectra
    }

    /** get_total_samples: the number of elements the buffer owns. */
    function TotalSamples(): (n: nat)
      reads data
      requires Valid()
      ensures n == data.Length
    {
      Channels() * Spectra()
    }

    /** The samples of channel c, in order. */
    ghost function Channel(c: nat): (ch: seq<real>)
      reads data
      requires Valid() && c < Channels()
      ensures |ch| == Spectra()
    {
      ChannelFits(Channels(), Spectra(), c);
      ChannelOf(data[..], Spectra(), c)
    }

    /** Every sample of a channel is a value of the element type. */
    lemma ChannelInRange(c: nat)
      requires Valid() && c < Channels()
      ensures AllInRange(kind, Channel(c))
    {
      ChannelFits(Channels(), Spectra(), c);
      AllInRangeSlice(kind, data[..], c * Spectra(), c * Spectra() + Spectra());
    }

    /** Zero-filled buffer of the given shape; the shape is not validated. */
    constructor (info: TimeFrequencyMetadata, elementKind: ScalarKind)
      ensures metadata == info && kind == elementKind
      ensures Valid() && fresh(data)
      ensures data[..] == seq(info.frequencyChannels * info.numberOfSpectra, _ => 0.0)
    {
      metadata := info;
      kind := elementKind;
      data := new real[info.frequencyChannels * info.numberOfSpectra](_ => 0.0);
    }

    /** Deep copy: same metadata and samples, in an array of its own. */
    constructor Copy(other: TimeFrequency)
      requires other.Valid()
      ensures metadata == other.metadata && kind == other.kind
      ensures Valid() && fresh(data)
      ensures data[..] == other.data[..]
    {
      var n := other.metadata.frequencyChannels * other.metadata.numberOfSpectra;
      var a := new real[n];
      CopyPrefix(other.data, a, n);
      assert a[..] == a[..n];
      metadata := other.metadata;
      kind := other.kind;
      data := a;
    }

    /**
     * get_sample (read): sample s of channel c, at index c * spectra + s;
     * both coordinates must lie inside the buffer.
     */
    function Sample(c: nat, s: nat): (v: real)
      reads data
      requires Valid() && c < Channels() && s < Spectra()
      ensures v == Channel(c)[s]
      ensures InRange(kind, v)
    {
      ChannelFits(Channels(), Spectra(), c);
      var i := c * Spectra() + s;
      assert data[..][c * Spectra()..c * Spectra() + Spectra()][s] == data[i];
      assert data[i] == data[..][i];
      data[i]
    }

    /**
     * get_raw_channel_start: the index of channel c's first sample; the
     * next `spectra` indices from it address that channel's samples.
     */
    function ChannelStart(c: nat): (i: nat)
      reads data
      requires Valid() && c < Channels()
      ensures i + Spectra() <= data.Length
      ensures forall s :: 0 <= s < Spectra() ==> data[i + s] == Sample(c, s)
    {
      ChannelFits(Channels(), Spectra(), c);
      c * Spectra()
    }

    /** get_sample (write): stores v at sample s of channel c. */
    method SetSample(c: nat, s: nat, v: real)
      requires Valid() && c < Channels() && s < Spectra()
      requires InRange(kind, v)
      modifies data
      ensures Valid()
      ensures SampleIndex(Spectra(), c, s) < data.Length
      ensures data[..] == old(data[..])[SampleIndex(Spectra(), c, s) := v]
    {
      ChannelFits(Channels(), Spectra(), c);
      SetRaw(SampleIndex(Spectra(), c, s), v);
    }

    /** A store through get_raw(): element i of the array becomes v. */
    method SetRaw(i: nat, v: real)
      requires Valid() && i < data.Length && InRange(kind, v)
      modifies data
      ensures Valid()
      ensures data[..] == old(data[..])[i := v]
    {
      data[i] := v;
    }

    /**
     * read_data_from_raw: a null source is refused with invalid_argument and
     * changes nothing; otherwise the buffer takes the source's first
     * total_samples elements.
     */
    method ReadDataFromRaw(source: array?<real>) returns (r: Outcome)
      requires Valid()
      requires source != null ==> source.Length >= data.Length
      requires source != null ==> AllInRange(kind, source[..data.Length])
      modifies data
      ensures Valid()
      ensures source == null ==> r == Fail(InvalidArgument) && data[..] == old(data[..])
      ensures source != null ==> r == Pass && data[..] == old(source[..data.Length])
    {
      if source == null {
        return Fail(InvalidArgument);
      }
      CopyPrefix(source, data, data.Length);
      assert data[..] == data[..data.Length];
      return Pass;
    }

    /**
     * write_data_to_raw: a null destination is refused with
     * invalid_argument; otherwise its first total_samples elements become
     * the buffer's samples, its tail and the buffer itself are unchanged.
     */
    method WriteDataToRaw(destination: array?<real>) returns (r: Outcome)
      requires Valid()
      requires destination != null ==> destination.Length >= data.Length
      modifies destination
      ensures destination == null ==> r == Fail(InvalidArgument)
      ensures destination != null ==>
        && r == Pass
        && destination[..data.Length] == old(data[..])
        && destination[data.Length..] == old(destination[data.Length..])
      ensures data[..] == old(data[..]) && Valid()
    {
      if destination == null {
        return Fail(InvalidArgument);
      }
      CopyPrefix(data, destination, data.Length);
      assert data[..] == data[..data.Length];
      return Pass;
    }

    /**
     * write_data_to_time_frequency: copies every sample into `other`; a
     * buffer holding a different number of samples is refused with
     * out_of_range and left unchanged.
     */
    method WriteDataToTimeFrequency(other: TimeFrequency) returns (r: Outcome)
      requires Valid() && other.Valid() && other.kind == kind
      modifies other.data
      ensures other.Valid() && Valid()
      ensures data[..] == old(data[..])
      ensures data.Length != other.data.Length ==>
        r == Fail(OutOfRange) && other.data[..] == old(other.data[..])
      ensures data.Length == other.data.Length ==>
        r == Pass && other.data[..] == old(data[..])
    {
      if data.Length != other.data.Length {
        return Fail(OutOfRange);
      }
      CopyPrefix(data, other.data, data.Length);
      assert other.data[..] == other.data[..data.Length];
      assert data[..] == data[..data.Length];
      return Pass;
    }

    /**
     * Integral is_equal: identity, or equal metadata and every sample
     * equal.
     */
    method IsEqual(other: TimeFrequency) returns (b: bool)
      requires Valid() && other.Valid()
      requires kind != F32 && other.kind == kind
      ensures b <==> metadata.IsEqual(other.metadata) && data[..] == other.data[..]
      ensures this == other ==> b
    {
      if this == other {
        return true;
      }
      if !metadata.IsEqual(other.metadata) {
        return false;
      }
      var i := 0;
      while i < data.Length
        invariant i <= data.Length == other.data.Length
        invariant data[..i] == other.data[..i]
      {
        if data[i] != other.data[i] {
          assert data[..][i] != other.data[..][i];
          return false;
        }
        assert data[..i + 1] == data[..i] + [data[i]];
        assert other.data[..i + 1] == other.data[..i] + [other.data[i]];
        i := i + 1;
      }
      assert data[..] == data[..i] && other.data[..] == other.data[..i];
      return true;
    }

    /**
     * Floating-point is_equal: identity, or equal metadata and every pair
     * of samples at most 1e-6 apart.
     */
    method IsEqualWithinTolerance(other: TimeFrequency) returns (b: bool)
      requires Valid() && other.Valid()
      requires kind == F32 && other.kind == kind
      ensures b <==> metadata.IsEqual(other.metadata) && WithinTolerance(data[..], other.data[..])
      ensures this == other ==> b
    {
      if this == other {
        return true;
      }
      if !metadata.IsEqual(other.metadata) {
        return false;
      }
      var i := 0;
      while i < data.Length
        invariant i <= data.Length == other.data.Length
        invariant forall k :: 0 <= k < i ==> Abs(data[k] - other.data[k]) <= Tolerance
      {
        if Abs(data[i] - other.data[i]) > Tolerance {
          return false;
        }
        i := i + 1;
      }
      return true;
    }

    /** set_channel_to_value: every sample of channel c becomes v, nothing else changes. */
    method SetChannelToValue(c: nat, v: real)
      requires Valid() && c < Channels() && InRange(kind, v)
      modifies data
      ensures Valid()
      ensures c * Spectra() + Spectra() <= data.Length
      ensures data[..] == FillChannel(old(data[..]), Spectra(), c, v)
    {
      ChannelFits(Channels(), Spectra(), c);
      var start := c * Spectra();
      var s := 0;
      while s < Spectra()
        invariant s <= Spectra()
        invariant forall i :: 0 <= i < start ==> data[i] == old(data[i])
        invariant forall i :: start <= i < start + s ==> data[i] == v
        invariant forall i :: start + s <= i < data.Length ==> data[i] == old(data[i])
      {
        data[start + s] := v;
        s := s + 1;
      }
      assert data[..] == FillChannel(old(data[..]), Spectra(), c, v);
    }

    /**
     * destructive_calculate_channel_median: the channel's order statistic
     * at index spectra / 2 (the upper middle for an even count), found by
     * selection inside the channel; the channel is left permuted and every
     * other sample unchanged.
     */
    method DestructiveChannelMedian(c: nat) returns (m: real)
      requires Valid() && c < Channels() && Spectra() > 0
      modifies data
      ensures Valid()
      ensures c * Spectra() + Spectra() <= data.Length
      ensures m == KthSmallest(old(Channel(c)), Spectra() / 2)
      ensures InRange(kind, m)
      ensures multiset(Channel(c)) == multiset(old(Channel(c)))
      ensures data[..c * Spectra()] == old(data[..c * Spectra()])
      ensures data[c * Spectra() + Spectra()..] == old(data[c * Spectra() + Spectra()..])
    {
      ChannelFits(Channels(), Spectra(), c);
      var lo := c * Spectra();
      var hi := lo + Spectra();
      ghost var before := data[..];
      Selection.NthElement(data, lo, lo + Spectra() / 2, hi);
      assert data[..lo] == data[..][..lo] && before[..lo] == old(data[..lo]);
      assert data[hi..] == data[..][hi..];
      AllInRangeSplice(kind, before, data[..], lo, hi);
      m := data[lo + Spectra() / 2];
      assert m == data[..][lo + Spectra() / 2];
    }
  }
}
