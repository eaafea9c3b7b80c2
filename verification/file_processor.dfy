/**
 * The chunk driver: a file of samples is cleaned one buffer-sized chunk at
 * a time. The input file is a sequence of samples read through a cursor,
 * the output file a sequence that each processed chunk is appended to.
 */
module FileProcessing {
  import opened Scalar
  import opened Wrappers
  import opened Metadata
  import opened Layout
  import opened Cleaning
  import opened TimeFrequencyBuffer
  import opened RfiStrategy

  /**
   * The output of cleaning the first n whole chunks of `source` by `rule`,
   * chunk after chunk; a chunk is `total` = channels * spectra samples, so
   * chunk i is ChannelOf(source, total, i).
   */
  function CleanedChunks(rule: Rule, source: seq<real>, spectra: nat, channels: nat, total: nat, n: nat): (out: seq<real>)
    requires total == channels * spectra && (channels == 0 || spectra >= MinSpectra(rule))
    requires n * total <= |source|
    ensures |out| == n * total
  {
    if n == 0 then []
    else
      PreviousChannelEnd(total, n);
      CleanedChunks(rule, source, spectra, channels, total, n - 1)
        + Cleaned(rule, ChannelOf(source, total, n - 1), spectra, channels)
  }

  /** Chunk i of the output is chunk i of the input cleaned: the chunks do not influence one another. */
  lemma {:induction false} CleanedChunkAt(rule: Rule, source: seq<real>, spectra: nat, channels: nat, total: nat, n: nat, i: nat)
    requires total == channels * spectra && (channels == 0 || spectra >= MinSpectra(rule))
    requires n * total <= |source| && i < n
    ensures i * total + total <= n * total
    ensures ChannelOf(CleanedChunks(rule, source, spectra, channels, total, n), total, i)
         == Cleaned(rule, ChannelOf(source, total, i), spectra, channels)
  {
    ChannelFits(n, total, i);
    PreviousChannelEnd(total, n);
    var prefix := CleanedChunks(rule, source, spectra, channels, total, n - 1);
    var last := Cleaned(rule, ChannelOf(source, total, n - 1), spectra, channels);
    assert CleanedChunks(rule, source, spectra, channels, total, n) == prefix + last;
    if i < n - 1 {
      CleanedChunkAt(rule, source, spectra, channels, total, n - 1, i);
      ChannelFits(n - 1, total, i);
      ChannelOfAppend(prefix, last, total, i);
    } else {
      ChannelOfAppendLast(prefix, last, total, i);
    }
  }

  /**
   * read_time_frequency_data_from_file on an input held as a sequence: the
   * buffer takes the next total_samples samples from the cursor on; a read
   * that would pass the end of the input fails with runtime_error (the
   * samples a failed read leaves in the buffer are not modelled).
   */
  method ReadChunk(source: seq<real>, cursor: nat, buffer: TimeFrequency) returns (r: Outcome)
    requires buffer.Valid() && AllInRange(buffer.kind, source)
    modifies buffer.data
    ensures buffer.Valid()
    ensures cursor + buffer.data.Length > |source| ==> r == Fail(RuntimeError)
    ensures cursor + buffer.data.Length <= |source| ==>
      r == Pass && buffer.data[..] == source[cursor..cursor + buffer.data.Length]
  {
    var n := buffer.data.Length;
    if cursor + n > |source| {
      return Fail(RuntimeError);
    }
    var i := 0;
    while i < n
      invariant i <= n && buffer.Valid()
      invariant buffer.data[..i] == source[cursor..cursor + i]
    {
      buffer.SetRaw(i, source[cursor + i]);
      i := i + 1;
    }
    assert buffer.data[..] == buffer.data[..n];
    return Pass;
  }

  /**
   * The strategy serves chunks of shape `info`. RudimentaryRfi serves any
   * shape. A strategy built with a scratch buffer must not have been built
   * for channels of no samples, and one built for the chunk's sample count
   * was built for its channels and spectra too: one instance serves
   * buffers of one size and type.
   */
  predicate Serves(st: Strategy, info: TimeFrequencyMetadata) {
    match ScratchShape(st)
    case None => true
    case Some(m) =>
      && (m.frequencyChannels == 0 || m.numberOfSpectra > 0)
      && (m.frequencyChannels * m.numberOfSpectra == info.frequencyChannels * info.numberOfSpectra ==>
            m.frequencyChannels == info.frequencyChannels && m.numberOfSpectra == info.numberOfSpectra)
  }

  /** The strategy was built for chunks with the sample count of `info` (RudimentaryRfi: for any). */
  predicate BuiltFor(st: Strategy, info: TimeFrequencyMetadata) {
    match ScratchShape(st)
    case None => true
    case Some(m) => m.frequencyChannels * m.numberOfSpectra == info.frequencyChannels * info.numberOfSpectra
  }

  class FileProcessor {
    const strategy: Strategy
    const chunkInfo: TimeFrequencyMetadata

    constructor (rfiModule: Strategy, info: TimeFrequencyMetadata)
      ensures strategy == rfiModule && chunkInfo == info
    {
      strategy := rfiModule;
      chunkInfo := info;
    }

    /**
     * What a round needs: a valid strategy that serves the chunk shape, an
     * input of the strategy's element type, and a buffer of the chunk shape
     * and type apart from the strategy's scratch arrays.
     */
    ghost predicate Ready(source: seq<real>, buffer: TimeFrequency)
      reads buffer.data, Scratch(strategy)
    {
      && Valid(strategy) && chunkInfo.frequencyChannels * chunkInfo.numberOfSpectra > 0
      && Serves(strategy, chunkInfo)
      && chunkInfo.numberOfSpectra >= MinSpectra(RuleOf(strategy))
      && AllInRange(DataKind(strategy), source)
      && buffer.Valid() && buffer.metadata == chunkInfo && buffer.kind == DataKind(strategy)
      && buffer.data !in Scratch(strategy)
    }

    /**
     * One round of process_file: chunk i of the input is read into the
     * buffer and the strategy cleans it there; a strategy built for another
     * sample count refuses it with out_of_range.
     */
    method ProcessChunk(source: seq<real>, buffer: TimeFrequency, total: nat, i: nat) returns (r: Outcome)
      requires Ready(source, buffer)
      requires total == buffer.data.Length && i * total + total <= |source|
      modifies {buffer.data} + Scratch(strategy)
      ensures Ready(source, buffer)
      ensures !BuiltFor(strategy, chunkInfo) ==> r == Fail(OutOfRange)
      ensures BuiltFor(strategy, chunkInfo) ==>
        && r == Pass
        && buffer.data[..] == Cleaned(RuleOf(strategy), ChannelOf(source, total, i),
                                      chunkInfo.numberOfSpectra, chunkInfo.frequencyChannels)
    {
      var read := ReadChunk(source, i * total, buffer);
      if read.Fail? {
        assert false;
      }
      ghost var chunk := buffer.data[..];
      assert chunk == ChannelOf(source, total, i);
      assert SizeMatches(strategy, buffer) == BuiltFor(strategy, chunkInfo);
      var processed := Process(strategy, buffer);
      if processed.Err? {
        return Fail(processed.error);
      }
      assert buffer.data[..] == Cleaned(RuleOf(strategy), chunk, buffer.Spectra(), buffer.Channels());
      return Pass;
    }

    /**
     * The loop of process_file: chunks 0 .. chunks - 1 read, cleaned and
     * appended in order; the out_of_range of a strategy built for another
     * sample count ends the loop in its first round, before anything is
     * written.
     */
    method ProcessChunks(source: seq<real>, buffer: TimeFrequency, total: nat, chunks: nat)
      returns (r: Outcome, destination: seq<real>)
      requires Ready(source, buffer)
      requires total == buffer.data.Length && chunks * total <= |source|
      modifies {buffer.data} + Scratch(strategy)
      ensures Valid(strategy)
      ensures BuiltFor(strategy, chunkInfo) ==>
        && r == Pass
        && destination == CleanedChunks(RuleOf(strategy), source, chunkInfo.numberOfSpectra,
                                        chunkInfo.frequencyChannels, total, chunks)
      ensures !BuiltFor(strategy, chunkInfo) ==>
        destination == [] && r == if chunks == 0 then Pass else Fail(OutOfRange)
    {
      destination := [];
      var i := 0;
      while i < chunks
        invariant i <= chunks && Ready(source, buffer)
        invariant BuiltFor(strategy, chunkInfo) ==>
          destination == CleanedChunks(RuleOf(strategy), source, chunkInfo.numberOfSpectra,
                                       chunkInfo.frequencyChannels, total, i)
        invariant !BuiltFor(strategy, chunkInfo) ==> i == 0 && destination == []
      {
        ChannelFits(chunks, total, i);
        var round := ProcessChunk(source, buffer, total, i);
        if round.Fail? {
          return round, destination;
        }
        PreviousChannelEnd(total, i + 1);
        destination := destination + buffer.data[..];
        i := i + 1;
      }
      return Pass, destination;
    }

    /**
     * process_file: as many rounds of read, process and write as the input
     * holds whole chunks, in order; the samples after the last whole chunk
     * are neither read nor written, the per-chunk counts are discarded, and
     * the result is the number of chunks. No read passes the end of the
     * input. A strategy built for another sample count makes the first
     * round throw out_of_range, which propagates with nothing written.
     */
    method ProcessFile(source: seq<real>) returns (r: Result<nat>, destination: seq<real>)
      requires Valid(strategy) && chunkInfo.frequencyChannels * chunkInfo.numberOfSpectra > 0
      requires Serves(strategy, chunkInfo)
      requires chunkInfo.numberOfSpectra >= MinSpectra(RuleOf(strategy))
      requires AllInRange(DataKind(strategy), source)
      modifies Scratch(strategy)
      ensures Valid(strategy)
      ensures BuiltFor(strategy, chunkInfo) ==>
        && r == Ok(|source| / (chunkInfo.frequencyChannels * chunkInfo.numberOfSpectra))
        && destination == CleanedChunks(RuleOf(strategy), source, chunkInfo.numberOfSpectra,
             chunkInfo.frequencyChannels, chunkInfo.frequencyChannels * chunkInfo.numberOfSpectra,
             |source| / (chunkInfo.frequencyChannels * chunkInfo.numberOfSpectra))
      ensures !BuiltFor(strategy, chunkInfo) ==>
        && destination == []
        && r == if |source| < chunkInfo.frequencyChannels * chunkInfo.numberOfSpectra then Ok(0) else Err(OutOfRange)
    {
      var buffer := new TimeFrequency(chunkInfo, DataKind(strategy));
      var total := buffer.TotalSamples();
      var chunks := |source| / total;
      WholeBlocks(|source|, total);
      assert total == chunkInfo.frequencyChannels * chunkInfo.numberOfSpectra;
      assert Ready(source, buffer);
      var outcome;
      outcome, destination := ProcessChunks(source, buffer, total, chunks);
      if outcome.Fail? {
        return Err(outcome.error), destination;
      }
      return Ok(chunks), destination;
    }
  }
}
