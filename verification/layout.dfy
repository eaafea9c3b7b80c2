/**
 * Channel-major layout of a time-frequency buffer: sample s of channel c
 * of a buffer with S spectra per channel sits at index c * S + s.
 */
module Layout {

  function SampleIndex(spectra: nat, c: nat, s: nat): nat {
    c * spectra + s
  }

  /** Every (channel, sample) pair of a C x S buffer addresses a distinct index inside it. */
  lemma SampleIndexInBounds(channels: nat, spectra: nat, c: nat, s: nat)
    requires c < channels && s < spectra
    ensures SampleIndex(spectra, c, s) < channels * spectra
    ensures SampleIndex(spectra, c, s) / spectra == c
    ensures SampleIndex(spectra, c, s) % spectra == s
  {
    ChannelFits(channels, spectra, c);
    DivModUnique(c * spectra + s, spectra, c, s);
  }

  /** Euclidean division by d > 0 has a single quotient and remainder. */
  lemma DivModUnique(i: int, d: nat, q: int, r: int)
    requires d > 0 && i == q * d + r && 0 <= r < d
    ensures i / d == q && i % d == r
  {
    var k := q - i / d;
    assert k * d == i % d - r by {
      assert i == (i / d) * d + i % d;
      assert k * d == q * d - (i / d) * d;
    }
  }

  lemma {:induction false} MulMonotone(a: nat, b: nat, k: nat)
    requires a <= b
    ensures a * k <= b * k
  {
    if k > 0 {
      MulMonotone(a, b, k - 1);
      assert a * k == a * (k - 1) + a;
      assert b * k == b * (k - 1) + b;
    }
  }

  /** Every index of a C x S buffer is the address of the pair (i / S, i % S). */
  lemma IndexDecomposes(channels: nat, spectra: nat, i: nat)
    requires i < channels * spectra
    ensures spectra > 0 && i / spectra < channels && i % spectra < spectra
    ensures SampleIndex(spectra, i / spectra, i % spectra) == i
  {
    if i / spectra >= channels {
      MulMonotone(channels, i / spectra, spectra);
    }
  }

  /** Channel c < C of a C x S buffer ends inside it. */
  lemma ChannelFits(channels: nat, spectra: nat, c: nat)
    requires c < channels
    ensures c * spectra + spectra <= channels * spectra
  {
    MulMonotone(c + 1, channels, spectra);
    assert (c + 1) * spectra == c * spectra + spectra;
  }

  /** The samples of channel c (get_raw_channel_start(c) .. + S). */
  function ChannelOf(s: seq<real>, spectra: nat, c: nat): (ch: seq<real>)
    requires c * spectra + spectra <= |s|
    ensures |ch| == spectra
  {
    s[c * spectra..c * spectra + spectra]
  }

  /** `s` with every sample of channel c set to v. */
  function FillChannel(s: seq<real>, spectra: nat, c: nat, v: real): (r: seq<real>)
    requires c * spectra + spectra <= |s|
    ensures |r| == |s|
    ensures ChannelOf(r, spectra, c) == seq(spectra, _ => v)
    ensures forall i :: 0 <= i < |s| && !(c * spectra <= i < c * spectra + spectra) ==> r[i] == s[i]
  {
    seq(|s|, i requires 0 <= i < |s| => if c * spectra <= i < c * spectra + spectra then v else s[i])
  }

  /** Filling channel c leaves an earlier channel d as it was. */
  lemma FillOtherChannel(s: seq<real>, spectra: nat, c: nat, d: nat, v: real)
    requires c * spectra + spectra <= |s| && d < c
    ensures d * spectra + spectra <= |s|
    ensures ChannelOf(FillChannel(s, spectra, c, v), spectra, d) == ChannelOf(s, spectra, d)
  {
    ChannelsOrdered(spectra, d, c);
    var r := FillChannel(s, spectra, c, v);
    var lo := d * spectra;
    forall k | 0 <= k < spectra ensures ChannelOf(r, spectra, d)[k] == ChannelOf(s, spectra, d)[k] {
      assert r[lo + k] == s[lo + k];
    }
  }

  /** Writing sample k of channel c writes position k of that channel. */
  lemma ChannelOfUpdate(s: seq<real>, spectra: nat, c: nat, k: nat, v: real)
    requires c * spectra + spectra <= |s| && k < spectra
    ensures c * spectra + k < |s|
    ensures ChannelOf(s[c * spectra + k := v], spectra, c) == ChannelOf(s, spectra, c)[k := v]
  {
    SliceUpdate(s, c * spectra, c * spectra + spectra, c * spectra + k, v);
  }

  lemma SliceUpdate(s: seq<real>, lo: nat, hi: nat, i: nat, v: real)
    requires lo <= i < hi <= |s|
    ensures s[i := v][lo..hi] == s[lo..hi][i - lo := v]
  {
  }

  /** A prefix of whole channels followed by one more channel. */
  lemma PrefixByChannel(s: seq<real>, spectra: nat, c: nat)
    requires c * spectra + spectra <= |s|
    ensures (c + 1) * spectra == c * spectra + spectra
    ensures s[..(c + 1) * spectra] == s[..c * spectra] + ChannelOf(s, spectra, c)
  {
    assert (c + 1) * spectra == c * spectra + spectra;
  }

  /** `a` and `b` have the same length and the same samples from index `from` on. */
  ghost predicate AgreeFrom(a: seq<real>, b: seq<real>, from: nat) {
    |a| == |b| && forall i :: from <= i < |a| ==> a[i] == b[i]
  }

  /** Agreement from index i on implies agreement from any later index. */
  lemma AgreeFromLater(a: seq<real>, b: seq<real>, i: nat, j: nat)
    requires AgreeFrom(a, b, i) && i <= j
    ensures AgreeFrom(a, b, j)
  {
  }

  /** Channel c of a sequence whose first channels were left alone. */
  lemma ChannelOfUnchangedSuffix(s: seq<real>, t: seq<real>, spectra: nat, from: nat, c: nat)
    requires AgreeFrom(s, t, from) && from <= c * spectra
    requires c * spectra + spectra <= |s|
    ensures ChannelOf(s, spectra, c) == ChannelOf(t, spectra, c)
  {
    var lo := c * spectra;
    forall k | 0 <= k < spectra ensures ChannelOf(s, spectra, c)[k] == ChannelOf(t, spectra, c)[k] {
      assert s[lo + k] == t[lo + k];
    }
  }

  /** Channel c - 1 ends where channel c starts. */
  lemma PreviousChannelEnd(spectra: nat, c: nat)
    requires c > 0
    ensures (c - 1) * spectra + spectra == c * spectra
  {
  }

  /** Channel order: channel c starts no earlier than channel d's end when d < c. */
  lemma ChannelsOrdered(spectra: nat, d: nat, c: nat)
    requires d < c
    ensures d * spectra + spectra <= c * spectra
  {
    MulMonotone(d + 1, c, spectra);
    assert (d + 1) * spectra == d * spectra + spectra;
  }

  /** Appending samples after channel c leaves channel c alone. */
  lemma ChannelOfAppend(p: seq<real>, q: seq<real>, spectra: nat, c: nat)
    requires c * spectra + spectra <= |p|
    ensures ChannelOf(p + q, spectra, c) == ChannelOf(p, spectra, c)
  {
  }

  /** A whole channel appended to c whole channels is channel c. */
  lemma ChannelOfAppendLast(p: seq<real>, q: seq<real>, spectra: nat, c: nat)
    requires |p| == c * spectra && |q| == spectra
    ensures ChannelOf(p + q, spectra, c) == q
  {
  }

  /** Two buffers of the same shape with the same channels are equal. */
  lemma ChannelsDetermine(a: seq<real>, b: seq<real>, spectra: nat, channels: nat)
    requires |a| == channels * spectra && |b| == channels * spectra
    requires forall c :: 0 <= c < channels ==>
      c * spectra + spectra <= |a| && ChannelOf(a, spectra, c) == ChannelOf(b, spectra, c)
    ensures a == b
  {
    forall i | 0 <= i < |a| ensures a[i] == b[i] {
      IndexDecomposes(channels, spectra, i);
      var c, k := i / spectra, i % spectra;
      ChannelFits(channels, spectra, c);
      assert a[i] == ChannelOf(a, spectra, c)[k];
      assert b[i] == ChannelOf(b, spectra, c)[k];
    }
  }

  /** A length n holds n / d whole blocks of d, and none exactly when n < d. */
  lemma WholeBlocks(n: nat, d: nat)
    requires d > 0
    ensures (n / d) * d <= n
    ensures n / d == 0 <==> n < d
  {
    assert n == (n / d) * d + n % d;
    if n < d {
      DivModUnique(n, d, 0, n);
    }
  }
}
