/**
 * The strategy interface: `process(buffer)` hands the buffer to the
 * strategy's own processing routine, which cleans it in place and returns
 * the number of channels it flagged. The four strategies are the cases of
 * one datatype and `Process` dispatches on it.
 */
module RfiStrategy {
  import opened Scalar
  import opened Wrappers
  import opened Metadata
  import opened Cleaning
  import opened TimeFrequencyBuffer
  import opened MadRfiStrategy
  import opened MadParallelRfiStrategy
  import opened MedianStdDevRfiStrategy
  import opened RudimentaryRfiStrategy

  datatype Strategy =
    | Mad(mad: MadRfi)
    | MadParallel(parallel: MadParallelRfi)
    | MedianSd(sd: MedianStandardDeviationRfi)
    | Rudimentary(baseline: RudimentaryRfi)

  /** StrategyDataType: the element type of the buffers the strategy cleans. */
  function DataKind(st: Strategy): ScalarKind {
    match st
    case Mad(m) => m.kind
    case MadParallel(p) => p.kind
    case MedianSd(d) => d.kind
    case Rudimentary(_) => F32
  }

  /** The per-channel rule the strategy applies. */
  function RuleOf(st: Strategy): (rule: Rule)
    ensures KindOf(rule) == DataKind(st)
  {
    match st
    case Mad(m) => m.AsRule()
    case MadParallel(p) => p.AsRule()
    case MedianSd(d) => d.AsRule()
    case Rudimentary(b) => b.AsRule()
  }

  /** The arrays the strategy owns and overwrites while processing. */
  function Scratch(st: Strategy): set<object> {
    match st
    case Mad(m) => {m.temp.data, m.deviations}
    case MadParallel(p) => {p.temp.data}
    case MedianSd(d) => {d.temp.data}
    case Rudimentary(_) => {}
  }

  ghost predicate Valid(st: Strategy)
    reads Scratch(st)
  {
    match st
    case Mad(m) => m.Valid()
    case MadParallel(p) => p.Valid()
    case MedianSd(d) => d.Valid()
    case Rudimentary(_) => true
  }

  /** The shape of the scratch buffer the strategy was constructed with; none for RudimentaryRfi. */
  function ScratchShape(st: Strategy): Option<TimeFrequencyMetadata> {
    match st
    case Mad(m) => Some(m.temp.metadata)
    case MadParallel(p) => Some(p.temp.metadata)
    case MedianSd(d) => Some(d.temp.metadata)
    case Rudimentary(_) => None
  }

  /**
   * Whether the buffer's sample count is the one the strategy was built
   * for; a strategy without a scratch buffer accepts any count.
   */
  predicate SizeMatches(st: Strategy, buffer: TimeFrequency) {
    match ScratchShape(st)
    case None => true
    case Some(info) => buffer.data.Length == info.frequencyChannels * info.numberOfSpectra
  }

  /**
   * What the strategies require of a buffer: a valid buffer of the
   * strategy's element type, distinct from its scratch arrays; a buffer
   * with the strategy's sample count also has its shape (one strategy
   * instance serves buffers of one size and type); and every channel holds
   * enough samples for the median.
   */
  ghost predicate Accepts(st: Strategy, buffer: TimeFrequency)
    reads buffer.data
  {
    && buffer.Valid() && buffer.kind == DataKind(st) && buffer.data !in Scratch(st)
    && match ScratchShape(st)
       case None => buffer.Channels() == 0 || buffer.Spectra() >= MinSpectra(RuleOf(st))
       case Some(info) =>
         && (info.frequencyChannels == 0 || info.numberOfSpectra > 0)
         && (SizeMatches(st, buffer) ==>
               buffer.Channels() == info.frequencyChannels && buffer.Spectra() == info.numberOfSpectra)
  }

  /**
   * process: the strategy's processing routine on the same buffer, with
   * its result. A buffer of the wrong size is refused with out_of_range and
   * left as it was; otherwise the buffer ends cleaned by the strategy's
   * rule and the result counts the channels flagged.
   */
  method Process(st: Strategy, buffer: TimeFrequency) returns (r: Result<nat>)
    requires Valid(st) && Accepts(st, buffer)
    modifies {buffer.data} + Scratch(st)
    ensures Valid(st) && buffer.Valid()
    ensures !SizeMatches(st, buffer) ==> r == Err(OutOfRange) && buffer.data[..] == old(buffer.data[..])
    ensures SizeMatches(st, buffer) ==>
      && Processable(RuleOf(st), old(buffer.data[..]), buffer.Spectra(), buffer.Channels())
      && r == Ok(FlaggedCount(RuleOf(st), old(buffer.data[..]), buffer.Spectra(), buffer.Channels()))
      && buffer.data[..] == Cleaned(RuleOf(st), old(buffer.data[..]), buffer.Spectra(), buffer.Channels())
  {
    match st
    case Mad(m) =>
      r := m.ProcessImpl(buffer);
    case MadParallel(p) =>
      r := p.ProcessImpl(buffer);
    case MedianSd(d) =>
      r := d.ProcessImpl(buffer);
    case Rudimentary(b) =>
      var count := b.ProcessImpl(buffer);
      r := Ok(count);
  }
}
