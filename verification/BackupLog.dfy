/** The backup server's log writer: size-limited files file, file.1, ..., file.N, rotated by a
 cascade of renames any of which may fail. */
module BackupLog {
  import opened Collections

  /** The bytes one Write got into a file. */
  type Chunk = seq<byte>

  /** File 0 is the current file, file k the one with suffix .k; contents as the chunks appended. */
  type Files = map<nat, seq<Chunk>>

  function Content(files: Files, i: nat): seq<Chunk> { if i in files then files[i] else [] }

  /** What a reader of file.n, ..., file.1, file sees, oldest first. */
  function Reading(files: Files, n: nat): seq<Chunk> {
    Content(files, n) + if n == 0 then [] else Reading(files, n - 1)
  }

  function Size(file: seq<Chunk>): nat { |Flatten(file)| }

  lemma {:induction false} ReadingDepends(a: Files, b: Files, n: nat)
    requires forall i :: 0 <= i <= n ==> Content(a, i) == Content(b, i)
    ensures Reading(a, n) == Reading(b, n)
  {
    if n > 0 {
      ReadingDepends(a, b, n - 1);
    }
  }

  function Moved(files: Files, i: nat): Files
    requires i > 0 && i - 1 in files
  {
    files[i := files[i - 1]] - {i - 1}
  }

  /** Moving a file onto the last one drops exactly what the last one held. */
  lemma MoveOntoLast(files: Files, n: nat)
    requires 0 < n && n - 1 in files
    ensures Reading(files, n) == Content(files, n) + Reading(Moved(files, n), n)
  {
    var later := Moved(files, n);
    if n > 1 {
      ReadingDepends(later, files, n - 2);
    }
    assert Reading(files, n - 1) == Content(files, n - 1) + if n == 1 then [] else Reading(files, n - 2);
    assert Reading(later, n - 1) == if n == 1 then [] else Reading(files, n - 2);
  }

  /** Moving a file one place up into a free place changes nothing for the reader. */
  lemma {:induction false} MoveKeepsReading(files: Files, i: nat, n: nat)
    requires 0 < i <= n && i - 1 in files && i !in files
    ensures Reading(Moved(files, i), n) == Reading(files, n)
  {
    if i < n {
      MoveKeepsReading(files, i, n - 1);
    } else {
      MoveOntoLast(files, n);
    }
  }

  lemma ReadAfterMove(files: Files, i: nat, n: nat)
    requires 0 < i <= n && i - 1 in files && (i == n || i !in files)
    ensures Reading(Moved(files, i), n) == Reading(files, n)[|Content(files, i)|..]
  {
    if i == n {
      MoveOntoLast(files, n);
    } else {
      MoveKeepsReading(files, i, n);
    }
  }

  /** Removing the oldest place drops exactly its content. */
  lemma RemoveKeepsReading(files: Files, n: nat)
    ensures Reading(files - {n}, n) == Reading(files, n)[|Content(files, n)|..]
  {
    if n > 0 {
      ReadingDepends(files - {n}, files, n - 1);
    }
  }

  lemma {:induction false} AppendExtendsReading(files: Files, chunk: Chunk, n: nat)
    ensures Reading(files[0 := Content(files, 0) + [chunk]], n) == Reading(files, n) + [chunk]
  {
    if n > 0 {
      AppendExtendsReading(files, chunk, n - 1);
    }
  }

  lemma {:induction false} NothingToRead(n: nat)
    ensures Reading(map[], n) == []
  {
    if n > 0 {
      NothingToRead(n - 1);
    }
  }

  // ----- rotation

  /** How the file system answers one rotation: whether the current file's size can be read, whether
      the last file can be removed, and, place by place, whether the cascade's questions and renames
      are answered and done. */
  datatype Answers = Answers(sized: bool, removes: bool, looks: nat -> bool, renames: nat -> bool)

  predicate Fits(files: Files, incoming: nat, maxSize: nat) { Size(Content(files, 0)) + incoming <= maxSize }

  /** One place of the cascade: if the file below exists it is renamed into this place. */
  function MovedUp(files: Files, i: nat, a: Answers): (Files, bool)
    requires i > 0
  {
    if !a.looks(i - 1) then (files, false)
    else if i - 1 !in files then (files, true)
    else if a.renames(i) then (Moved(files, i), true)
    else (files, false)
  }

  /** The cascade from a place down; it ends at the first answer that is an error. */
  function Cascaded(files: Files, index: nat, a: Answers): (Files, bool)
    decreases index
  {
    if index == 0 then (files, true) else
    var (now, ok) := MovedUp(files, index, a);
    if ok then Cascaded(now, index - 1, a) else (now, false)
  }

  /** Removing the last file, which may fail unless it is the only one, and the cascade. */
  function MadeRoom(files: Files, n: nat, a: Answers): (Files, bool) {
    var left := if a.removes then files - {n} else files;
    if n == 0 then (left, a.removes) else Cascaded(left, n, a)
  }

  function Rotated(files: Files, incoming: nat, maxSize: nat, n: nat, a: Answers): (Files, bool) {
    if !a.sized then (files, false)
    else if Fits(files, incoming, maxSize) then (files, true)
    else MadeRoom(files, n, a)
  }

  /** The first step of a whole cascade renames over the last file. */
  predicate ReplacesLast(files: Files, n: nat, a: Answers) {
    n > 0 && a.looks(n - 1) && n - 1 in files && a.renames(n)
  }

  /** The last place is given up: there was no room, and its file was removed or renamed over. */
  predicate GivesUpLast(files: Files, incoming: nat, maxSize: nat, n: nat, a: Answers) {
    && a.sized && !Fits(files, incoming, maxSize)
    && (a.removes || ReplacesLast(files, n, a))
  }

  /** How many of the oldest chunks a rotation gives up. */
  function GivenUp(files: Files, incoming: nat, maxSize: nat, n: nat, a: Answers): nat {
    if GivesUpLast(files, incoming, maxSize, n, a) then |Content(files, n)| else 0
  }

  /** No more files than asked for, none of them too big: at most the limit and one newline, or a
      single record. */
  ghost predicate Shaped(files: Files, maxSize: nat, n: nat) {
    && (forall i :: i in files ==> i <= n)
    && (forall i :: i in files ==> Size(files[i]) <= maxSize + 1 || |files[i]| == 1)
  }

  /** The files hold a suffix of the log. */
  ghost predicate Sound(files: Files, log: seq<Chunk>, dropped: nat, maxSize: nat, n: nat) {
    Shaped(files, maxSize, n) && dropped <= |log| && Reading(files, n) == log[dropped..]
  }

  lemma SuffixOfSuffix(log: seq<Chunk>, dropped: nat, k: nat)
    requires dropped + k <= |log|
    ensures log[dropped..][k..] == log[dropped + k..]
  {
  }

  lemma MoveKeepsShape(files: Files, i: nat, maxSize: nat, n: nat)
    requires Shaped(files, maxSize, n) && 0 < i <= n && i - 1 in files
    ensures Shaped(Moved(files, i), maxSize, n)
  {
  }

  lemma MoveKeepsSound(files: Files, i: nat, log: seq<Chunk>, dropped: nat, maxSize: nat, n: nat)
    requires Sound(files, log, dropped, maxSize, n)
    requires 0 < i <= n && i - 1 in files && (i == n || i !in files)
    ensures Sound(Moved(files, i), log, dropped + |Content(files, i)|, maxSize, n)
  {
    MoveKeepsShape(files, i, maxSize, n);
    ReadAfterMove(files, i, n);
    if i == n {
      MoveOntoLast(files, n);
    }
    SuffixOfSuffix(log, dropped, |Content(files, i)|);
  }

  lemma AppendKeepsShape(files: Files, chunk: Chunk, maxSize: nat, n: nat)
    requires Shaped(files, maxSize, n)
    requires 0 !in files || Size(files[0]) + |chunk| <= maxSize + 1
    ensures Shaped(files[0 := Content(files, 0) + [chunk]], maxSize, n)
  {
    FlattenSnoc(Content(files, 0), chunk);
  }

  lemma AppendKeepsSound(files: Files, chunk: Chunk, log: seq<Chunk>, dropped: nat, maxSize: nat, n: nat)
    requires Sound(files, log, dropped, maxSize, n)
    requires 0 !in files || Size(files[0]) + |chunk| <= maxSize + 1
    ensures Sound(files[0 := Content(files, 0) + [chunk]], log + [chunk], dropped, maxSize, n)
  {
    AppendExtendsReading(files, chunk, n);
    AppendKeepsShape(files, chunk, maxSize, n);
    assert (log + [chunk])[dropped..] == log[dropped..] + [chunk];
  }

  /** Below the last place a cascade moves files into free places only. */
  lemma {:induction false} CascadeKeepsSound(files: Files, index: nat, a: Answers, log: seq<Chunk>, dropped: nat,
                                             maxSize: nat, n: nat)
    requires Sound(files, log, dropped, maxSize, n) && index < n && index !in files
    ensures Sound(Cascaded(files, index, a).0, log, dropped, maxSize, n)
    ensures Cascaded(files, index, a).1 ==> 0 !in Cascaded(files, index, a).0
    decreases index
  {
    if index > 0 {
      var (now, ok) := MovedUp(files, index, a);
      if index - 1 in files {
        MoveKeepsSound(files, index, log, dropped, maxSize, n);
      }
      if ok {
        CascadeKeepsSound(now, index - 1, a, log, dropped, maxSize, n);
      }
    }
  }

  lemma RemoveKeepsSound(files: Files, log: seq<Chunk>, dropped: nat, maxSize: nat, n: nat)
    requires Sound(files, log, dropped, maxSize, n)
    ensures Sound(files - {n}, log, dropped + |Content(files, n)|, maxSize, n)
  {
    RemoveKeepsReading(files, n);
    assert |Content(files, n)| <= |Reading(files, n)|;
    SuffixOfSuffix(log, dropped, |Content(files, n)|);
  }

  lemma ReplacingCascadeKeepsSound(files: Files, a: Answers, log: seq<Chunk>, dropped: nat, maxSize: nat, n: nat)
    requires Sound(files, log, dropped, maxSize, n) && ReplacesLast(files, n, a)
    ensures Sound(Cascaded(files, n, a).0, log, dropped + |Content(files, n)|, maxSize, n)
    ensures Cascaded(files, n, a).1 ==> 0 !in Cascaded(files, n, a).0
  {
    MoveKeepsSound(files, n, log, dropped, maxSize, n);
    CascadeKeepsSound(Moved(files, n), n - 1, a, log, dropped + |Content(files, n)|, maxSize, n);
    assert Cascaded(files, n, a) == Cascaded(Moved(files, n), n - 1, a);
  }

  lemma OtherCascadeKeepsSound(files: Files, a: Answers, log: seq<Chunk>, dropped: nat, maxSize: nat, n: nat)
    requires Sound(files, log, dropped, maxSize, n) && n > 0 && !ReplacesLast(files, n, a)
    ensures Sound(Cascaded(files, n, a).0, log, dropped, maxSize, n)
    ensures Cascaded(files, n, a).1 ==> 0 !in Cascaded(files, n, a).0
  {
    if a.looks(n - 1) && n - 1 !in files {
      CascadeKeepsSound(files, n - 1, a, log, dropped, maxSize, n);
      assert Cascaded(files, n, a) == Cascaded(files, n - 1, a);
    } else {
      assert Cascaded(files, n, a) == (files, false);
    }
  }

  lemma WholeCascadeKeepsSound(files: Files, a: Answers, log: seq<Chunk>, dropped: nat, maxSize: nat, n: nat)
    requires Sound(files, log, dropped, maxSize, n) && n > 0
    ensures Sound(Cascaded(files, n, a).0, log, dropped + (if ReplacesLast(files, n, a) then |Content(files, n)| else 0), maxSize, n)
    ensures Cascaded(files, n, a).1 ==> 0 !in Cascaded(files, n, a).0
  {
    if ReplacesLast(files, n, a) {
      ReplacingCascadeKeepsSound(files, a, log, dropped, maxSize, n);
    } else {
      OtherCascadeKeepsSound(files, a, log, dropped, maxSize, n);
    }
  }

  lemma RemovalKeepsSound(files: Files, a: Answers, log: seq<Chunk>, dropped: nat, maxSize: nat, n: nat)
    requires Sound(files, log, dropped, maxSize, n) && a.removes
    ensures Sound(MadeRoom(files, n, a).0, log, dropped + |Content(files, n)|, maxSize, n)
    ensures MadeRoom(files, n, a).1 ==> 0 !in MadeRoom(files, n, a).0
  {
    RemoveKeepsSound(files, log, dropped, maxSize, n);
    if n > 0 {
      WholeCascadeKeepsSound(files - {n}, a, log, dropped + |Content(files, n)|, maxSize, n);
    }
  }

  lemma FailedRemovalKeepsSound(files: Files, a: Answers, log: seq<Chunk>, dropped: nat, maxSize: nat, n: nat)
    requires Sound(files, log, dropped, maxSize, n) && !a.removes
    ensures Sound(MadeRoom(files, n, a).0, log, dropped + (if ReplacesLast(files, n, a) then |Content(files, n)| else 0), maxSize, n)
    ensures MadeRoom(files, n, a).1 ==> 0 !in MadeRoom(files, n, a).0
  {
    if n > 0 {
      WholeCascadeKeepsSound(files, a, log, dropped, maxSize, n);
    }
  }

  /** A rotation, whatever fails in it, keeps everything but what it gives up, and makes room if it
      succeeds. */
  lemma RotationKeepsSound(files: Files, incoming: nat, a: Answers, log: seq<Chunk>, dropped: nat, maxSize: nat, n: nat)
    requires Sound(files, log, dropped, maxSize, n)
    ensures Sound(Rotated(files, incoming, maxSize, n, a).0, log, dropped + GivenUp(files, incoming, maxSize, n, a), maxSize, n)
    ensures Rotated(files, incoming, maxSize, n, a).1 ==>
              0 !in Rotated(files, incoming, maxSize, n, a).0 || Fits(Rotated(files, incoming, maxSize, n, a).0, incoming, maxSize)
  {
    if a.sized && !Fits(files, incoming, maxSize) {
      if a.removes {
        RemovalKeepsSound(files, a, log, dropped, maxSize, n);
      } else {
        FailedRemovalKeepsSound(files, a, log, dropped, maxSize, n);
      }
    }
  }

  /** The reader misses something afterwards exactly if the last place was given up and held
      something: no other failure or success loses a byte. */
  lemma RotationDropsExactly(files: Files, incoming: nat, a: Answers, maxSize: nat, n: nat)
    requires Shaped(files, maxSize, n)
    ensures var now := Rotated(files, incoming, maxSize, n, a).0;
            && GivenUp(files, incoming, maxSize, n, a) <= |Reading(files, n)|
            && Reading(now, n) == Reading(files, n)[GivenUp(files, incoming, maxSize, n, a)..]
            && (Reading(now, n) != Reading(files, n) <==>
                  GivesUpLast(files, incoming, maxSize, n, a) && Content(files, n) != [])
  {
    RotationKeepsSound(files, incoming, a, Reading(files, n), 0, maxSize, n);
  }

  /** A rotation that gives up the oldest file and then fails: the last file is removed, and the
      rename into its place does not work. */
  lemma RotationCanFailAfterDropping(files: Files, incoming: nat, a: Answers, maxSize: nat, n: nat)
    requires Shaped(files, maxSize, n) && !Fits(files, incoming, maxSize)
    requires n > 0 && n - 1 in files && Content(files, n) != []
    requires a.sized && a.removes && a.looks(n - 1) && !a.renames(n)
    ensures var (now, ok) := Rotated(files, incoming, maxSize, n, a);
            !ok && Reading(now, n) == Reading(files, n)[|files[n]|..] && Reading(now, n) != Reading(files, n)
  {
    RotationDropsExactly(files, incoming, a, maxSize, n);
  }

  /** A message above the limit makes a rotation give up the oldest file even if there is no current
      file to make room in. */
  lemma OversizedMessageDropsWithoutCurrentFile(files: Files, incoming: nat, a: Answers, maxSize: nat, n: nat)
    requires Shaped(files, maxSize, n) && 0 !in files && incoming > maxSize
    requires a.sized && a.removes && Content(files, n) != []
    ensures Reading(Rotated(files, incoming, maxSize, n, a).0, n) == Reading(files, n)[|files[n]|..]
    ensures Reading(Rotated(files, incoming, maxSize, n, a).0, n) != Reading(files, n)
  {
    RotationDropsExactly(files, incoming, a, maxSize, n);
  }

  /** The cascade done down to a place: the places above hold what stood one below them before, the
      place itself is free, and the places below are as they were. Down to 0 it is a full rotation. */
  ghost predicate RotatedDownTo(now: Files, was: Files, index: nat, n: nat) {
    && index !in now
    && (forall j :: j > index ==> (j in now <==> j <= n && j - 1 in was) && (j in now ==> now[j] == was[j - 1]))
    && (forall j :: 0 <= j < index ==> (j in now <==> j in was) && (j in now ==> now[j] == was[j]))
  }

  lemma RotateOneMore(now: Files, was: Files, index: nat, n: nat)
    requires 0 < index <= n && RotatedDownTo(now, was, index, n)
    ensures RotatedDownTo(if index - 1 in now then Moved(now, index) else now, was, index - 1, n)
  {
  }

  ghost predicate Quiet(a: Answers) { a.sized && a.removes && forall i :: a.looks(i) && a.renames(i) }

  lemma {:induction false} QuietCascade(now: Files, was: Files, index: nat, n: nat, a: Answers)
    requires Quiet(a) && index <= n && RotatedDownTo(now, was, index, n)
    ensures Cascaded(now, index, a).1 && RotatedDownTo(Cascaded(now, index, a).0, was, 0, n)
    decreases index
  {
    if index > 0 {
      RotateOneMore(now, was, index, n);
      QuietCascade(MovedUp(now, index, a).0, was, index - 1, n, a);
    }
  }

  /** Without a failure a rotation that is needed moves every file up by exactly one place. */
  lemma QuietRotationMovesAllUp(files: Files, incoming: nat, a: Answers, maxSize: nat, n: nat)
    requires Quiet(a) && Shaped(files, maxSize, n) && Size(Content(files, 0)) + incoming > maxSize
    ensures Rotated(files, incoming, maxSize, n, a).1
    ensures RotatedDownTo(Rotated(files, incoming, maxSize, n, a).0, files, 0, n)
  {
    assert RotatedDownTo(files - {n}, files, n, n);
    if n > 0 {
      QuietCascade(files - {n}, files, n, n, a);
    }
  }

  // ----- writing

  predicate EndsLine(message: Chunk) { |message| > 0 && message[|message| - 1] == 10 }

  function Terminated(message: Chunk): Chunk { if EndsLine(message) then message else message + [10] }

  /** What a write gets into the file when the loop gets `written` bytes out. */
  function Appended(message: Chunk, written: nat, newline: bool): Chunk
    requires written <= |message|
  {
    if written < |message| then message[..written]
    else if EndsLine(message) || !newline then message
    else message + [10]
  }

  /** What reaches the file of what was written: all of it, or, if flushing, syncing or closing
      fails, perhaps only so many bytes. */
  function Reached(chunk: Chunk, synced: bool, reach: nat): Chunk {
    if synced || |chunk| <= reach then chunk else chunk[..reach]
  }

  class BackupFileWriter {
    const maxSize: nat
    const retainedFiles: nat
    var files: Files
    ghost var log: seq<Chunk>     // everything that ever reached a file
    ghost var dropped: nat        // how much of it is no longer on disk

    ghost predicate Valid()
      reads this
    {
      Sound(files, log, dropped, maxSize, retainedFiles)
    }

    constructor (size: nat, retained: nat)
      ensures Valid() && files == map[] && log == [] && maxSize == size && retainedFiles == retained
    {
      maxSize, retainedFiles := size, retained;
      files, log, dropped := map[], [], 0;
      new;
      NothingToRead(retained);
    }

    /** One place of the cascade, with the file system's two calls. */
    method MoveUp(i: nat, a: Answers) returns (ok: bool)
      requires i > 0
      modifies this`files
      ensures (files, ok) == MovedUp(old(files), i, a)
    {
      if !a.looks(i - 1) {
        return false;
      }
      if i - 1 !in files {
        return true;
      }
      ok := a.renames(i);
      if ok {
        files := Moved(files, i);
      }
    }

    /** The renames, from the oldest place down to the current file. */
    method Cascade(a: Answers) returns (ok: bool)
      requires retainedFiles > 0
      modifies this`files
      ensures (files, ok) == Cascaded(old(files), retainedFiles, a)
    {
      var index := retainedFiles;
      while index > 1
        invariant 1 <= index <= retainedFiles
        invariant Cascaded(files, index, a) == Cascaded(old(files), retainedFiles, a)
      {
        ok := MoveUp(index, a);
        if !ok {
          return false;
        }
        index := index - 1;
      }
      ok := MoveUp(1, a);
    }

    /** Makes room for a message. It gives up the last file exactly if there was no room and its
        removal or replacement succeeded, and keeps everything else whatever fails. */
    method RotateIfNeeded(incoming: nat, a: Answers) returns (ok: bool)
      requires Valid()
      modifies this`files, this`dropped
      ensures Valid() && (files, ok) == Rotated(old(files), incoming, maxSize, retainedFiles, a)
      ensures dropped == old(dropped) + GivenUp(old(files), incoming, maxSize, retainedFiles, a)
      ensures Size(Content(old(files), 0)) + incoming <= maxSize ==> files == old(files) && dropped == old(dropped)
      ensures Size(Content(old(files), 0)) + incoming > maxSize && Quiet(a) ==>
                ok && RotatedDownTo(files, old(files), 0, retainedFiles)
      ensures ok ==> 0 !in files || Fits(files, incoming, maxSize)
    {
      RotationKeepsSound(files, incoming, a, log, dropped, maxSize, retainedFiles);
      if Quiet(a) && !Fits(files, incoming, maxSize) {
        QuietRotationMovesAllUp(files, incoming, a, maxSize, retainedFiles);
      }
      dropped := dropped + GivenUp(files, incoming, maxSize, retainedFiles, a);
      if !a.sized {
        return false;
      }
      var currentSize := if 0 in files then Size(files[0]) else 0;
      if currentSize + incoming <= maxSize {
        return true;
      }
      if a.removes {
        files := files - {retainedFiles};
      }
      if retainedFiles == 0 {
        return a.removes;
      }
      ok := Cascade(a);
    }

    /** The fwrite loop: how much of n bytes it gets out. */
    static method Transfer(n: nat, counts: seq<nat>) returns (written: nat)
      ensures written == Taken(n, counts)
    {
      var left: seq<nat> := counts;
      written := 0;
      while written < n
        invariant written <= n && written + Taken(n - written, left) == Taken(n, counts)
        decreases n - written
      {
        var count := if |left| > 0 && left[0] < n - written then left[0] else n - written;
        if count == 0 {
          break;
        }
        written := written + count;
        left := if |left| > 0 then left[1..] else left;
      }
    }

    method Append(chunk: Chunk)
      requires Valid()
      requires 0 !in files || Size(files[0]) + |chunk| <= maxSize + 1
      modifies this`files, this`log
      ensures Valid() && log == old(log) + [chunk]
      ensures files == old(files)[0 := Content(old(files), 0) + [chunk]]
    {
      AppendKeepsSound(files, chunk, log, dropped, maxSize, retainedFiles);
      files := files[0 := Content(files, 0) + [chunk]];
      log := log + [chunk];
    }

    /** Writes one message. Whatever fails, the reader keeps a suffix of all that ever reached a file;
        the rotation's last place is all that is given up, and only when there was no room. */
    method Write(message: Chunk, a: Answers, opens: bool, counts: seq<nat>, newline: bool, synced: bool, reach: nat)
      returns (ok: bool, ghost chunk: Option<Chunk>)
      requires Valid()
      modifies this
      ensures Valid() && log == old(log) + if chunk.Some? then [chunk.value] else []
      ensures dropped == old(dropped) + GivenUp(old(files), |message|, maxSize, retainedFiles, a)
      ensures Size(Content(old(files), 0)) + |message| <= maxSize ==> dropped == old(dropped)
      ensures chunk.Some? <==> Rotated(old(files), |message|, maxSize, retainedFiles, a).1 && opens
      ensures chunk.Some? ==> chunk.value == Reached(Appended(message, Taken(|message|, counts), newline), synced, reach)
      ensures var room := Rotated(old(files), |message|, maxSize, retainedFiles, a).0;
              files == if chunk.Some? then room[0 := Content(room, 0) + [chunk.value]] else room
      ensures ok <==> chunk == Some(Terminated(message)) && synced
      ensures ok ==> chunk.value == if |message| > 0 && message[|message| - 1] == 10 then message else message + [10]
      ensures Quiet(a) && opens && 0 !in counts && newline && synced ==> ok
    {
      chunk := None;
      ok := RotateIfNeeded(|message|, a);
      if !ok || !opens {
        return false, chunk;
      }
      var written := Transfer(|message|, counts);
      var appended := message[..written];
      assert written == |message| ==> appended == message;
      ok := written == |message|;
      if ok && !EndsLine(message) {
        if newline {
          appended := appended + [10];
        } else {
          ok := false;
        }
      }
      appended := if synced || |appended| <= reach then appended else appended[..reach];
      Append(appended);
      chunk := Some(appended);
      ok := ok && synced;
    }
  }
}
