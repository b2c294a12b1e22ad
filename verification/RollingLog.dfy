/** The rolling file sink of the logger, and what the asynchronous worker's batches become in it. */
module RollingLog {
  import opened Arithmetic
  import opened Collections

  type Batch = seq<byte>

  /** The sink: every file ever opened, oldest first, as the chunks written to it; the last one is
      the current file while `open`. `lost` counts, per file, the bytes of failed writes, which
      the size counter of the source does not see. */
  datatype Sink = Sink(maxSize: nat, files: seq<seq<Batch>>, lost: seq<nat>, open: bool, currentSize: nat, sequence: nat)

  /** How the file system answers one Flush: whether a new file can be opened, how many bytes the
      write loop gets out, and whether the stream's error flag is clear afterwards. */
  datatype Answer = Answer(opens: bool, written: nat, clean: bool)

  predicate StaysInFile(s: Sink, incoming: nat) {
    s.open && (s.currentSize == 0 || incoming <= s.maxSize - Min(s.currentSize, s.maxSize))
  }

  function AfterEnsureFile(s: Sink, incoming: nat, opens: bool): Sink {
    if StaysInFile(s, incoming) then s
    else if opens then
      s.(files := s.files + [[]], lost := s.lost + [0], open := true, currentSize := 0, sequence := s.sequence + 1)
    else s.(open := false, sequence := s.sequence + 1)
  }

  function AppendChunk(files: seq<seq<Batch>>, chunk: Batch): seq<seq<Batch>>
    requires |files| > 0
  {
    files[|files| - 1 := files[|files| - 1] + [chunk]]
  }

  function AfterWrite(t: Sink, data: Batch, answer: Answer): Sink
    requires answer.written <= |data| && |t.lost| == |t.files|
  {
    if !t.open || |t.files| == 0 then t
    else
      var u := t.(files := AppendChunk(t.files, data[..answer.written]));
      if answer.written < |data| || !answer.clean
      then u.(lost := u.lost[|u.lost| - 1 := u.lost[|u.lost| - 1] + answer.written])
      else u.(currentSize := u.currentSize + |data|)
  }

  function AfterFlush(s: Sink, data: Batch, answer: Answer): Sink
    requires answer.written <= |data| && |s.lost| == |s.files|
  {
    AfterWrite(AfterEnsureFile(s, |data|, answer.opens), data, answer)
  }

  function Fresh(maxSize: nat): Sink { Sink(maxSize, [], [], false, 0, 1) }

  function FlushAll(maxSize: nat, batches: seq<Batch>, answers: seq<Answer>): (s: Sink)
    requires |answers| == |batches|
    requires forall i :: 0 <= i < |batches| ==> answers[i].written <= |batches[i]|
    ensures |s.lost| == |s.files| && s.maxSize == maxSize
  {
    if |batches| == 0 then Fresh(maxSize) else
    var n := |batches| - 1;
    AfterFlush(FlushAll(maxSize, batches[..n], answers[..n]), batches[n], answers[n])
  }

  // ----- any answers at all

  /** What actually reached the disk, write by write. */
  function Written(batches: seq<Batch>, answers: seq<Answer>, maxSize: nat): seq<Batch>
    requires |answers| == |batches|
    requires forall i :: 0 <= i < |batches| ==> answers[i].written <= |batches[i]|
  {
    if |batches| == 0 then [] else
    var n := |batches| - 1;
    var before := FlushAll(maxSize, batches[..n], answers[..n]);
    Written(batches[..n], answers[..n], maxSize)
    + if AfterFlush(before, batches[n], answers[n]).open then [batches[n][..answers[n].written]] else []
  }

  function Size(file: seq<Batch>): nat { |Flatten(file)| }

  /** Chunk j is the only one in the file that is not empty. */
  ghost predicate IsOnly(file: seq<Batch>, j: int) {
    && 0 <= j < |file| && file[j] != []
    && forall i :: 0 <= i < |file| && i != j ==> file[i] == []
  }

  /** At most the limit, or a single non-empty chunk. */
  ghost predicate WithinLimit(file: seq<Batch>, maxSize: nat) {
    Size(file) <= maxSize || exists j :: IsOnly(file, j)
  }

  /** The same for a file of which `lost` bytes came from failed writes: what the others wrote is at
      most the limit, or is one chunk. */
  ghost predicate KeepsLimit(file: seq<Batch>, lost: nat, maxSize: nat) {
    && lost <= Size(file)
    && (Size(file) <= maxSize + lost || exists j :: 0 <= j < |file| && Size(file) == |file[j]| + lost)
  }

  ghost predicate SizesHold(s: Sink) {
    && |s.lost| == |s.files|
    && (s.open ==> |s.files| > 0 && s.currentSize + s.lost[|s.lost| - 1] == Size(s.files[|s.files| - 1]))
    && (forall i :: 0 <= i < |s.files| ==> KeepsLimit(s.files[i], s.lost[i], s.maxSize))
  }

  lemma SizeSnoc(file: seq<Batch>, chunk: Batch)
    ensures Size(file + [chunk]) == Size(file) + |chunk|
  {
    FlattenSnoc(file, chunk);
  }

  lemma FailureKeepsLimit(file: seq<Batch>, lost: nat, maxSize: nat, chunk: Batch)
    requires KeepsLimit(file, lost, maxSize)
    ensures KeepsLimit(file + [chunk], lost + |chunk|, maxSize)
  {
    SizeSnoc(file, chunk);
    if j :| 0 <= j < |file| && Size(file) == |file[j]| + lost {
      assert (file + [chunk])[j] == file[j];
    }
  }

  lemma SuccessKeepsLimit(file: seq<Batch>, lost: nat, maxSize: nat, chunk: Batch)
    requires KeepsLimit(file, lost, maxSize)
    requires Size(file) == lost || |chunk| == 0 || Size(file) + |chunk| <= maxSize + lost
    ensures KeepsLimit(file + [chunk], lost, maxSize)
  {
    SizeSnoc(file, chunk);
    if Size(file) == lost {
      assert (file + [chunk])[|file|] == chunk;
    } else if j :| 0 <= j < |file| && Size(file) == |file[j]| + lost {
      assert (file + [chunk])[j] == file[j];
    }
  }

  lemma WriteKeepsSizes(t: Sink, data: Batch, answer: Answer)
    requires SizesHold(t) && answer.written <= |data|
    requires t.open ==> t.currentSize == 0 || |data| == 0 || t.currentSize + |data| <= t.maxSize
    ensures SizesHold(AfterWrite(t, data, answer))
  {
    if t.open {
      var n := |t.files| - 1;
      SizeSnoc(t.files[n], data[..answer.written]);
      if answer.written < |data| || !answer.clean {
        FailureKeepsLimit(t.files[n], t.lost[n], t.maxSize, data[..answer.written]);
      } else {
        SuccessKeepsLimit(t.files[n], t.lost[n], t.maxSize, data[..answer.written]);
      }
    }
  }

  lemma EnsureKeepsSizes(s: Sink, incoming: nat, opens: bool)
    requires SizesHold(s)
    ensures SizesHold(AfterEnsureFile(s, incoming, opens))
  {
  }

  lemma FlushKeepsSizes(s: Sink, data: Batch, answer: Answer)
    requires SizesHold(s) && answer.written <= |data|
    ensures SizesHold(AfterFlush(s, data, answer))
  {
    EnsureKeepsSizes(s, |data|, answer.opens);
    WriteKeepsSizes(AfterEnsureFile(s, |data|, answer.opens), data, answer);
  }

  /** Whatever fails, in each file the bytes of the writes that did not fail are at most the limit,
      or one chunk. */
  lemma {:induction false} FilesStayWithinLimit(maxSize: nat, batches: seq<Batch>, answers: seq<Answer>)
    requires |answers| == |batches|
    requires forall i :: 0 <= i < |batches| ==> answers[i].written <= |batches[i]|
    ensures SizesHold(FlushAll(maxSize, batches, answers))
  {
    if |batches| > 0 {
      var n := |batches| - 1;
      FilesStayWithinLimit(maxSize, batches[..n], answers[..n]);
      FlushKeepsSizes(FlushAll(maxSize, batches[..n], answers[..n]), batches[n], answers[n]);
    }
  }

  lemma {:induction false} ChunksFit(file: seq<Batch>, i: nat)
    requires i < |file|
    ensures |file[i]| <= Size(file)
  {
    if i < |file| - 1 {
      ChunksFit(file[..|file| - 1], i);
    }
  }

  lemma {:induction false} TwoChunksFit(file: seq<Batch>, i: nat, j: nat)
    requires i < j < |file|
    ensures |file[i]| + |file[j]| <= Size(file)
  {
    if j == |file| - 1 {
      ChunksFit(file[..j], i);
    } else {
      TwoChunksFit(file[..|file| - 1], i, j);
    }
  }

  /** Without failed bytes the limit is kept outright. */
  lemma NothingLostIsWithin(file: seq<Batch>, maxSize: nat)
    requires KeepsLimit(file, 0, maxSize)
    ensures WithinLimit(file, maxSize)
  {
    if Size(file) > maxSize {
      var j :| 0 <= j < |file| && Size(file) == |file[j]|;
      forall i | 0 <= i < |file| && i != j
        ensures file[i] == []
      {
        if i < j { TwoChunksFit(file, i, j); } else { TwoChunksFit(file, j, i); }
      }
      assert IsOnly(file, j);
    }
  }

  ghost predicate FilesWithinLimit(s: Sink) {
    forall i :: 0 <= i < |s.files| ==> WithinLimit(s.files[i], s.maxSize)
  }

  ghost predicate NoneLost(s: Sink) { forall i :: 0 <= i < |s.lost| ==> s.lost[i] == 0 }

  lemma NoneLostIsWithin(s: Sink)
    requires SizesHold(s) && NoneLost(s)
    ensures FilesWithinLimit(s)
  {
    forall i | 0 <= i < |s.files|
      ensures WithinLimit(s.files[i], s.maxSize)
    {
      NothingLostIsWithin(s.files[i], s.maxSize);
    }
  }

  // ----- when the limit is kept outright

  /** What a write of some length may end in: how much gets out, and the error flag. */
  type Outcomes = (nat, nat, bool) -> bool

  ghost predicate Permitted(may: Outcomes, batches: seq<Batch>, answers: seq<Answer>) {
    && |answers| == |batches|
    && forall i :: 0 <= i < |batches| ==>
         answers[i].written <= |batches[i]| && may(|batches[i]|, answers[i].written, answers[i].clean)
  }

  predicate Fails(length: nat, written: nat, clean: bool) { written < length || !clean }

  /** No failed write leaves bytes in the file. */
  ghost predicate FailuresLeaveNothing(may: Outcomes) {
    forall n, w, c :: may(n, w, c) && w <= n && Fails(n, w, c) ==> w == 0
  }

  lemma NothingMoreIsLost(s: Sink, data: Batch, answer: Answer)
    requires |s.lost| == |s.files| && NoneLost(s)
    requires answer.written <= |data| && (Fails(|data|, answer.written, answer.clean) ==> answer.written == 0)
    ensures NoneLost(AfterFlush(s, data, answer))
  {
  }

  lemma {:induction false} NothingIsLost(maxSize: nat, batches: seq<Batch>, answers: seq<Answer>, may: Outcomes)
    requires Permitted(may, batches, answers) && FailuresLeaveNothing(may)
    ensures NoneLost(FlushAll(maxSize, batches, answers))
  {
    if |batches| > 0 {
      var n := |batches| - 1;
      NothingIsLost(maxSize, batches[..n], answers[..n], may);
      NothingMoreIsLost(FlushAll(maxSize, batches[..n], answers[..n]), batches[n], answers[n]);
    }
  }

  /** The same failing write, made k times, piles up in one file: the size counter stays at zero. */
  lemma {:induction false} FailedBytesPileUp(maxSize: nat, data: Batch, answer: Answer, k: nat)
    requires k > 0 && answer.opens && answer.written <= |data| && Fails(|data|, answer.written, answer.clean)
    ensures var s := FlushAll(maxSize, seq(k, i => data), seq(k, i => answer));
            && s.open && s.currentSize == 0 && |s.files| == 1
            && s.files[0] == seq(k, i => data[..answer.written])
  {
    var batches, answers := seq(k, i => data), seq(k, i => answer);
    assert batches[..k - 1] == seq(k - 1, i => data) && answers[..k - 1] == seq(k - 1, i => answer);
    if k > 1 {
      FailedBytesPileUp(maxSize, data, answer, k - 1);
    }
    assert seq(k, i => data[..answer.written]) == seq(k - 1, i => data[..answer.written]) + [data[..answer.written]];
  }

  lemma {:induction false} PileIsHigh(chunk: Batch, k: nat)
    requires chunk != []
    ensures Size(seq(k, i => chunk)) >= k
  {
    if k > 0 {
      PileIsHigh(chunk, k - 1);
      assert seq(k, i => chunk) == seq(k - 1, i => chunk) + [chunk];
      SizeSnoc(seq(k - 1, i => chunk), chunk);
    }
  }

  lemma LeftoversBreakTheLimit(maxSize: nat, may: Outcomes, n: nat, w: nat, c: bool)
    returns (batches: seq<Batch>, answers: seq<Answer>)
    requires may(n, w, c) && 0 < w <= n && Fails(n, w, c)
    ensures Permitted(may, batches, answers)
    ensures var s := FlushAll(maxSize, batches, answers); |s.files| == 1 && !WithinLimit(s.files[0], maxSize)
  {
    var data: Batch := seq(n, i => 0);
    var answer := Answer(true, w, c);
    var k := maxSize + 2;
    batches, answers := seq(k, i => data), seq(k, i => answer);
    FailedBytesPileUp(maxSize, data, answer, k);
    PileIsHigh(data[..w], k);
    var file := seq(k, i => data[..w]);
    assert file[0] != [] && file[1] != [];
  }

  /** Over all batches and all permitted outcomes, every file is at most the limit or a single
      non-empty chunk exactly if no permitted failure leaves bytes behind. */
  lemma LimitHoldsExactly(maxSize: nat, may: Outcomes)
    ensures (forall batches, answers :: Permitted(may, batches, answers) ==>
               FilesWithinLimit(FlushAll(maxSize, batches, answers)))
       <==> FailuresLeaveNothing(may)
  {
    if FailuresLeaveNothing(may) {
      forall batches, answers | Permitted(may, batches, answers)
        ensures FilesWithinLimit(FlushAll(maxSize, batches, answers))
      {
        FilesStayWithinLimit(maxSize, batches, answers);
        NothingIsLost(maxSize, batches, answers, may);
        NoneLostIsWithin(FlushAll(maxSize, batches, answers));
      }
    } else {
      var n, w, c :| may(n, w, c) && w <= n && Fails(n, w, c) && w != 0;
      var batches, answers := LeftoversBreakTheLimit(maxSize, may, n, w, c);
    }
  }

  /** A failing write into a file whose size counter is still at zero. */
  lemma FailedWrite(s: Sink, file: seq<Batch>, data: Batch, answer: Answer)
    requires s.open && s.currentSize == 0 && s.files == [file] && |s.lost| == 1
    requires answer.written <= |data| && Fails(|data|, answer.written, answer.clean)
    ensures var u := AfterFlush(s, data, answer);
            u.open && u.currentSize == 0 && |u.lost| == 1 && u.files == [file + [data[..answer.written]]]
  {
  }

  lemma TwoFailedWrites(maxSize: nat, a: Batch, b: Batch, answer: Answer)
    requires answer.opens && answer.written < |a| && answer.written < |b|
    ensures FlushAll(maxSize, [a, b], [answer, answer]).files == [[a[..answer.written], b[..answer.written]]]
  {
    var w := answer.written;
    FailedBytesPileUp(maxSize, a, answer, 1);
    assert seq(1, i => a) == [a] && seq(1, i => answer) == [answer] && seq(1, i => a[..w]) == [a[..w]];
    assert [a, b][..1] == [a] && [answer, answer][..1] == [answer];
    var one, two := FlushAll(maxSize, [a], [answer]), FlushAll(maxSize, [a, b], [answer, answer]);
    assert one.files == [[a[..w]]];
    FailedWrite(one, [a[..w]], b, answer);
    assert two == AfterFlush(one, b, answer);
    assert [a[..w]] + [b[..w]] == [a[..w], b[..w]];
  }

  lemma SizeOfTwo(a: Batch, b: Batch)
    ensures Size([a, b]) == |a| + |b|
  {
    SizeSnoc([a], b);
    SizeSnoc([], a);
    assert [a, b] == [a] + [b] && [a] == [] + [a];
  }

  /** Two writes that stop short after three bytes each: a file of six with a limit of four. */
  lemma TwoShortWritesExceedFour(a: Batch, b: Batch)
    requires a == [1, 1, 1, 1] && b == [2, 2, 2, 2]
    ensures var s := FlushAll(4, [a, b], [Answer(true, 3, true), Answer(true, 3, true)]);
            |s.files| == 1 && s.files[0] == [a[..3], b[..3]] && Size(s.files[0]) == 6 && !WithinLimit(s.files[0], 4)
  {
    TwoFailedWrites(4, a, b, Answer(true, 3, true));
    SizeOfTwo(a[..3], b[..3]);
    assert [a[..3], b[..3]][0] != [] && [a[..3], b[..3]][1] != [];
  }

  lemma AppendKeepsOrder(files: seq<seq<Batch>>, chunk: Batch)
    requires |files| > 0
    ensures Flatten(AppendChunk(files, chunk)) == Flatten(files) + [chunk]
  {
    FlattenLast(files, chunk);
  }

  lemma FlushAddsWhatIsWritten(s: Sink, data: Batch, answer: Answer)
    requires answer.written <= |data| && |s.lost| == |s.files| && (s.open ==> |s.files| > 0)
    ensures var u := AfterFlush(s, data, answer);
            && (u.open ==> |u.files| > 0)
            && Flatten(u.files) == Flatten(s.files) + if u.open then [data[..answer.written]] else []
  {
    var t := AfterEnsureFile(s, |data|, answer.opens);
    FlattenSnoc(s.files, []);
    if t.open {
      AppendKeepsOrder(t.files, data[..answer.written]);
    }
  }

  /** In creation order the files hold exactly what was written, whatever failed on the way. */
  lemma {:induction false} FilesHoldWhatWasWritten(maxSize: nat, batches: seq<Batch>, answers: seq<Answer>)
    requires |answers| == |batches|
    requires forall i :: 0 <= i < |batches| ==> answers[i].written <= |batches[i]|
    ensures var s := FlushAll(maxSize, batches, answers);
            Flatten(s.files) == Written(batches, answers, maxSize) && (s.open ==> |s.files| > 0)
  {
    if |batches| > 0 {
      var n := |batches| - 1;
      FilesHoldWhatWasWritten(maxSize, batches[..n], answers[..n]);
      FlushAddsWhatIsWritten(FlushAll(maxSize, batches[..n], answers[..n]), batches[n], answers[n]);
    }
  }

  // ----- when every call succeeds

  function Rolled(maxSize: nat, batches: seq<Batch>): (s: Sink)
    ensures |s.lost| == |s.files| && s.maxSize == maxSize
  {
    if |batches| == 0 then Fresh(maxSize) else
    var data := batches[|batches| - 1];
    AfterFlush(Rolled(maxSize, batches[..|batches| - 1]), data, Answer(true, |data|, true))
  }

  ghost predicate AllSucceed(batches: seq<Batch>, answers: seq<Answer>) {
    |answers| == |batches| && forall i :: 0 <= i < |batches| ==> answers[i] == Answer(true, |batches[i]|, true)
  }

  lemma {:induction false} SuccessRolls(maxSize: nat, batches: seq<Batch>, answers: seq<Answer>)
    requires AllSucceed(batches, answers)
    ensures FlushAll(maxSize, batches, answers) == Rolled(maxSize, batches)
  {
    if |batches| > 0 {
      SuccessRolls(maxSize, batches[..|batches| - 1], answers[..|answers| - 1]);
    }
  }

  /** Each file starts with the batch that did not fit behind the file before. */
  ghost predicate Packed(s: Sink) {
    && |s.lost| == |s.files|
    && (forall i :: 0 <= i < |s.files| ==> |s.files[i]| > 0 && s.lost[i] == 0)
    && (s.open <==> |s.files| > 0)
    && (s.open ==> s.currentSize == Size(s.files[|s.files| - 1]))
    && (forall i, j :: 0 <= i && j == i + 1 && j < |s.files| ==> Size(s.files[i]) + |s.files[j][0]| > s.maxSize)
  }

  /** Packed, except that the current file may still be waiting for its first chunk. */
  ghost predicate Ready(t: Sink, incoming: nat) {
    && |t.files| > 0 && |t.lost| == |t.files| && t.open
    && (forall i :: 0 <= i < |t.files| ==> t.lost[i] == 0 && (i < |t.files| - 1 ==> |t.files[i]| > 0))
    && t.currentSize == Size(t.files[|t.files| - 1])
    && (forall i, j :: 0 <= i && j == i + 1 && j < |t.files| ==>
          Size(t.files[i]) + (if |t.files[j]| == 0 then incoming else |t.files[j][0]|) > t.maxSize)
  }

  lemma EnsureMakesReady(s: Sink, incoming: nat)
    requires Packed(s)
    ensures Ready(AfterEnsureFile(s, incoming, true), incoming)
  {
  }

  lemma WriteMakesPacked(t: Sink, data: Batch)
    requires Ready(t, |data|)
    ensures Packed(AfterWrite(t, data, Answer(true, |data|, true)))
  {
    assert data[..|data|] == data;
    FlattenSnoc(t.files[|t.files| - 1], data);
  }

  lemma FlushKeepsPacked(s: Sink, data: Batch)
    requires Packed(s)
    ensures Packed(AfterFlush(s, data, Answer(true, |data|, true)))
  {
    EnsureMakesReady(s, |data|);
    WriteMakesPacked(AfterEnsureFile(s, |data|, true), data);
  }

  lemma {:induction false} FilesArePacked(maxSize: nat, batches: seq<Batch>)
    ensures Packed(Rolled(maxSize, batches))
  {
    if |batches| > 0 {
      var n := |batches| - 1;
      FilesArePacked(maxSize, batches[..n]);
      FlushKeepsPacked(Rolled(maxSize, batches[..n]), batches[n]);
    }
  }

  lemma SuccessAppends(s: Sink, data: Batch)
    requires |s.lost| == |s.files| && (s.open ==> |s.files| > 0)
    ensures var u := AfterFlush(s, data, Answer(true, |data|, true));
            u.open && |u.files| > 0 && Flatten(u.files) == Flatten(s.files) + [data]
  {
    assert data[..|data|] == data;
    FlushAddsWhatIsWritten(s, data, Answer(true, |data|, true));
  }

  /** Successful writes: the files, oldest first, are the stream of batches, none of them split. */
  lemma {:induction false} FilesConcatenateToStream(maxSize: nat, batches: seq<Batch>)
    ensures Flatten(Rolled(maxSize, batches).files) == batches
    ensures Rolled(maxSize, batches).open ==> |Rolled(maxSize, batches).files| > 0
  {
    if |batches| > 0 {
      var n := |batches| - 1;
      FilesConcatenateToStream(maxSize, batches[..n]);
      SuccessAppends(Rolled(maxSize, batches[..n]), batches[n]);
      assert batches == batches[..n] + [batches[n]];
    }
  }

  lemma {:induction false} FirstChunkFits(file: seq<Batch>)
    requires |file| > 0
    ensures |file[0]| <= Size(file)
  {
    if |file| > 1 {
      FirstChunkFits(file[..|file| - 1]);
    }
  }

  lemma HalfStep(n: nat, m: nat)
    requires n >= 2
    ensures n / 2 * m == (n - 2) / 2 * m + m
  {
    assert n / 2 == (n - 2) / 2 + 1;
  }

  lemma LastTwoBytes(files: seq<seq<Batch>>)
    requires |files| >= 2
    ensures |Flatten(Flatten(files))|
         == |Flatten(Flatten(files[..|files| - 2]))| + Size(files[|files| - 2]) + Size(files[|files| - 1])
  {
    var n := |files|;
    assert files[..n - 1][..n - 2] == files[..n - 2];
    FlattenConcat(Flatten(files[..n - 2]) + files[n - 2], files[n - 1]);
    FlattenConcat(Flatten(files[..n - 2]), files[n - 2]);
  }

  /** Two neighbouring files together exceed the limit. */
  lemma {:induction false} PairsExceedLimit(files: seq<seq<Batch>>, maxSize: nat)
    requires forall i :: 0 <= i < |files| ==> |files[i]| > 0
    requires forall i, j :: 0 <= i && j == i + 1 && j < |files| ==> Size(files[i]) + |files[j][0]| > maxSize
    ensures |files| / 2 * (maxSize + 1) <= |Flatten(Flatten(files))|
  {
    if |files| >= 2 {
      var n := |files|;
      PairsExceedLimit(files[..n - 2], maxSize);
      LastTwoBytes(files);
      FirstChunkFits(files[n - 1]);
      HalfStep(n, maxSize + 1);
    }
  }

  /** The number of files is at most 2 * (total / maxSize) + 1. */
  lemma FileCountIsBounded(maxSize: nat, batches: seq<Batch>)
    requires maxSize > 0
    ensures |Rolled(maxSize, batches).files| <= 2 * (|Flatten(batches)| / maxSize) + 1
  {
    var files := Rolled(maxSize, batches).files;
    FilesArePacked(maxSize, batches);
    FilesConcatenateToStream(maxSize, batches);
    PairsExceedLimit(files, maxSize);
    var half := |files| / 2;
    assert half * (maxSize + 1) == half * maxSize + half;
    QuotientBound(half, maxSize, |Flatten(batches)|);
  }

  lemma GoodFlushAppends(s: Sink, data: Batch, answer: Answer, good: bool)
    requires |s.lost| == |s.files| && (s.open ==> |s.files| > 0) && answer.written <= |data|
    requires good ==> answer.opens && answer.clean
    requires good && AfterFlush(s, data, answer).open ==> answer.written == |data|
    ensures good ==> AfterFlush(s, data, answer).open
    ensures good ==> Flatten(AfterFlush(s, data, answer).files) == Flatten(s.files) + [data]
  {
    if good {
      assert AfterFlush(s, data, answer).open;
      assert answer == Answer(true, |data|, true);
      SuccessAppends(s, data);
    }
  }

  // ----- the object

  class RollFileFlush {
    const maxSize: nat
    var files: seq<Batch>      // contents of the files opened so far, oldest first
    var open: bool             // file_ is not null; it is then the last of `files`
    var currentSize: nat
    var sequence: nat
    ghost var chunks: seq<seq<Batch>>
    ghost var lost: seq<nat>

    ghost predicate Valid()
      reads this
    {
      && |files| == |chunks| == |lost|
      && (forall i :: 0 <= i < |files| ==> files[i] == Flatten(chunks[i]))
      && (open ==> |files| > 0)
    }

    ghost function View(): Sink
      reads this
    {
      Sink(maxSize, chunks, lost, open, currentSize, sequence)
    }

    constructor (size: nat)
      requires size > 0
      ensures Valid() && View() == Fresh(size)
    {
      maxSize := size;
      files, open, currentSize, sequence := [], false, 0, 1;
      chunks, lost := [], [];
    }

    /** fopen of a name that carries time, process and sequence number: a new, empty file. */
    method EnsureFile(incoming: nat, opens: bool) returns (ok: bool)
      requires Valid()
      modifies this
      ensures Valid() && ok == open
      ensures View() == AfterEnsureFile(old(View()), incoming, opens)
    {
      if open && (currentSize == 0 || incoming <= maxSize - Min(currentSize, maxSize)) {
        return true;
      }
      open := false;
      sequence := sequence + 1;
      if !opens {
        return false;
      }
      files, chunks, lost := files + [[]], chunks + [[]], lost + [0];
      open := true;
      currentSize := 0;
      return true;
    }

    /** The fwrite loop: each call takes some of what is left, and taking nothing ends it. */
    method WriteAll(data: Batch, counts: seq<nat>, clean: bool) returns (written: nat, ok: bool)
      requires Valid() && open
      modifies this`files, this`chunks
      ensures Valid() && written == Taken(|data|, counts) && ok == (written == |data| && clean)
      ensures chunks == AppendChunk(old(chunks), data[..written])
      ensures lost == old(lost)
    {
      var last := |files| - 1;
      written := 0;
      chunks := AppendChunk(chunks, []);
      FlattenSnoc(old(chunks)[last], []);
      var left: seq<nat> := counts;
      assert old(files)[last] + data[..0] == files[last];
      while written < |data|
        invariant 0 <= written <= |data| && |files| == last + 1
        invariant written + Taken(|data| - written, left) == Taken(|data|, counts)
        invariant files == old(files)[last := old(files)[last] + data[..written]]
        decreases |data| - written
      {
        var count := if |left| > 0 then Min(left[0], |data| - written) else |data| - written;
        if count == 0 {
          break;
        }
        assert files[last] + data[written..written + count] == old(files)[last] + data[..written + count];
        files := files[last := files[last] + data[written..written + count]];
        written := written + count;
        left := if |left| > 0 then left[1..] else left;
      }
      chunks := AppendChunk(old(chunks), data[..written]);
      FlattenSnoc(old(chunks)[last], data[..written]);
      return written, written == |data| && clean;
    }

    method PutIntoFile(data: Batch, opens: bool, counts: seq<nat>, clean: bool) returns (ghost answer: Answer)
      requires Valid()
      modifies this
      ensures Valid() && answer.opens == opens && answer.clean == clean
      ensures answer.written == if open then Taken(|data|, counts) else 0
      ensures View() == AfterFlush(old(View()), data, answer)
    {
      answer := Answer(opens, 0, clean);
      var ready := EnsureFile(|data|, opens);
      if !ready {
        return;
      }
      var written, ok := WriteAll(data, counts, clean);
      answer := Answer(opens, written, clean);
      if !ok {
        lost := lost[|lost| - 1 := lost[|lost| - 1] + written];
        return;
      }
      assert data[..written] == data;
      currentSize := currentSize + |data|;
    }

    /** One flush. Whatever went before, data for which every call succeeds is in the files, behind all
        that was there. */
    method Flush(data: Batch, opens: bool, counts: seq<nat>, clean: bool) returns (ghost answer: Answer)
      requires Valid()
      modifies this
      ensures Valid() && answer.opens == opens && answer.clean == clean
      ensures answer.written == if open then Taken(|data|, counts) else 0
      ensures View() == AfterFlush(old(View()), data, answer)
      ensures opens && 0 !in counts && clean ==> open && Flatten(chunks) == old(Flatten(chunks)) + [data]
    {
      ghost var before := View();
      answer := PutIntoFile(data, opens, counts, clean);
      GoodFlushAppends(before, data, answer, opens && 0 !in counts && clean);
    }
  }
}
