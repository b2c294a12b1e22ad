/** The asynchronous worker and the rolling sink together, from Push to the files on disk. */
module LogPipeline {
  import opened Collections
  import P = AsyncProtocol
  import R = RollingLog

  /** Groups the messages of the batches by the file their batch went to. */
  lemma {:induction false} Regroup(files: seq<seq<R.Batch>>, batches: seq<seq<P.Message>>, flushed: seq<R.Batch>)
    returns (groups: seq<seq<P.Message>>)
    requires Flatten(files) == flushed && |batches| == |flushed|
    requires forall i :: 0 <= i < |flushed| ==> flushed[i] == Flatten(batches[i])
    ensures |groups| == |files| && Flatten(groups) == Flatten(batches)
    ensures forall i :: 0 <= i < |files| ==> Flatten(files[i]) == Flatten(groups[i])
  {
    if |files| == 0 {
      return [];
    }
    var n := |files| - 1;
    var k := |flushed| - |files[n]|;
    assert flushed[..k] == Flatten(files[..n]) && flushed[k..] == files[n];
    var before := Regroup(files[..n], batches[..k], flushed[..k]);
    P.FlushedBytes(batches[k..], files[n]);
    groups := before + [Flatten(batches[k..])];
    FlattenSnoc(before, Flatten(batches[k..]));
    FlattenConcat(batches[..k], batches[k..]);
    assert batches == batches[..k] + batches[k..];
  }

  /** Every log file is a run of whole messages, and the files follow the order in which the
      messages were accepted: nothing is split over two files. */
  lemma NoMessageIsSplit(s: P.Worker, maxSize: nat) returns (groups: seq<seq<P.Message>>)
    requires P.Reachable(s) && maxSize > 0
    ensures var files := R.Rolled(maxSize, s.flushed).files;
            && |groups| == |files|
            && (forall i :: 0 <= i < |files| ==> Flatten(files[i]) == Flatten(groups[i]))
            && Flatten(groups) <= s.accepted
            && (s.thread == P.Exited ==> Flatten(Flatten(groups)) == Flatten(s.accepted))
  {
    P.BatchesAreWholeMessages(s);
    P.ReachableIsInv(s);
    R.FilesConcatenateToStream(maxSize, s.flushed);
    groups := Regroup(R.Rolled(maxSize, s.flushed).files, s.batches, s.flushed);
    if s.thread == P.Exited {
      P.ExitMeansDrained(s);
      P.FlushedBytes(s.batches, s.flushed);
    }
  }
}
