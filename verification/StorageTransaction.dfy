/**
 Uploads and deletes of the storage server as a machine over single system calls. The server runs
 one request at a time; any call may fail, and the process may die between any two of them. The
 metadata directory is apart from the two storage directories.
 */
module StorageTransaction {
  import opened Collections

  datatype Dir = Low | Deep

  datatype Path = Path(dir: Dir, name: string)

  type Bytes = seq<byte>

  type Files = map<Path, Bytes>

  /** File name to storage type; the URL is the download prefix and the name. */
  type Table = map<string, Dir>

  datatype Upload = Upload(name: string, dir: Dir, payload: Bytes) {
    function Final(): Path { Path(dir, name) }
  }

  /** How far the request in progress is; each phase is named after what has just happened. */
  datatype Phase =
    | Idle
    | Admitted(up: Upload)
    | Writing(up: Upload, temp: Path)
    | Written(up: Upload, temp: Path)
    | Linked(up: Upload, temp: Path)
    | UnlinkFailed(up: Upload, temp: Path)
    | Abandoned(temp: Path)
    | Placed(up: Upload)
    | Examined(up: Upload)
    | Recorded(up: Upload)
    | Refused(up: Upload)
    | Requested(name: string)
    | Found(name: string)
    | Prepared(name: string, trash: Path)
    | Cleared(name: string, trash: Path)
    | MovedAway(name: string, kept: Option<Path>)
    | EraseFailed(name: string, trash: Path)
    | Erased(name: string, kept: Option<Path>)
    | Doomed(trash: Path)
    | Spared(trash: Path)

  /** The files, the tables in memory and in the snapshot, and (from `stored` on) the history: what
      each durable name's upload wrote, and the files there were when the latest request began, if
      that was an upload. */
  datatype State = State(
    files: Files,
    mem: Table,
    durable: Table,
    phase: Phase,
    stored: map<string, Bytes>,
    before: Option<Files>)

  datatype Event =
    | StartUpload(up: Upload)
    | StartDelete(name: string)
    | MakeTemp(temp: Path)
    | MakeTempFails(leak: Option<Path>)
    | Write(total: nat)      // how much of the payload is in the file now
    | WriteEnds(ok: bool)
    | Link(ok: bool)
    | UnlinkTemp(ok: bool)
    | UndoLink(ok: bool)
    | DropTemp(ok: bool)
    | Examine(ok: bool)
    | PersistFails
    | Commit
    | Swap
    | Withdraw(ok: bool)
    | Probe(found: Option<bool>)
    | ClearTrash(ok: bool)
    | Move(ok: bool)
    | Restore(ok: bool)
    | Remove(ok: bool)
    | Crash

  // ----- names

  /** The names uploads may use, and those mkstemp can make for an upload's temporary file and for
      the trash of a delete. */
  datatype Names = Names(allowed: string -> bool, upload: string -> bool, trash: string -> bool)

  predicate IsLetter(c: char) { '0' <= c <= '9' || 'A' <= c <= 'Z' || 'a' <= c <= 'z' }

  predicate FitsTemplate(name: string, prefix: string) {
    && |name| == |prefix| + 6 && name[..|prefix|] == prefix
    && forall i :: |prefix| <= i < |name| ==> IsLetter(name[i])
  }

  /** The server's templates, with whatever names it is given. */
  function ServerNames(allowed: string -> bool): Names {
    Names(allowed, name => FitsTemplate(name, ".upload-"), name => FitsTemplate(name, ".delete-"))
  }

  /** What CreateTempFile can answer in a directory: a name of the template that is not taken. */
  predicate FreshTemp(files: Files, temp: Path, dir: Dir, template: string -> bool) {
    temp.dir == dir && template(temp.name) && temp !in files
  }

  // ----- the machine

  function PathOf(s: State, name: string): Path
    requires name in s.mem
  {
    Path(s.mem[name], name)
  }

  predicate TempEnabled(s: State, e: Event, dir: Dir, template: string -> bool) {
    match e
    case MakeTemp(temp) => FreshTemp(s.files, temp, dir, template)
    case MakeTempFails(leak) => leak.Some? ==> FreshTemp(s.files, leak.value, dir, template)
    case _ => false
  }

  predicate DeleteEnabled(s: State, e: Event, names: Names) {
    match s.phase
    case Requested(name) => name in s.mem && e.Probe? && (e.found.Some? ==> (e.found.value <==> PathOf(s, name) in s.files))
    case Found(name) =>
      name in s.mem && TempEnabled(s, e, s.mem[name], names.trash)
    case Prepared(_, _) => e.ClearTrash?
    case Cleared(name, trash) => name in s.mem && e.Move? && (e.ok ==> PathOf(s, name) in s.files)
    case MovedAway(_, _) => e.PersistFails? || e.Commit?
    case EraseFailed(name, trash) => name in s.mem && e.Restore? && trash in s.files
    case Erased(_, _) => e.Swap?
    case Doomed(_) => e.Remove?
    case Spared(_) => e.Remove?
    case _ => false
  }

  predicate UploadEnabled(s: State, e: Event, names: Names) {
    match s.phase
    case Admitted(up) =>
      TempEnabled(s, e, up.dir, names.upload)
    case Writing(up, temp) =>
      && temp in s.files
      && (if e.Write? then |s.files[temp]| < e.total <= |up.payload|
          else e.WriteEnds? && (e.ok ==> |s.files[temp]| == |up.payload|))
    case Written(up, temp) => temp in s.files && e.Link? && (e.ok ==> up.Final() !in s.files)
    case Linked(_, _) => e.UnlinkTemp?
    case UnlinkFailed(_, _) => e.UndoLink?
    case Abandoned(_) => e.DropTemp?
    case Placed(_) => e.Examine?
    case Examined(_) => e.PersistFails? || e.Commit?
    case Recorded(_) => e.Swap?
    case Refused(_) => e.Withdraw?
    case _ => false
  }

  predicate Enabled(s: State, e: Event, names: Names) {
    match e
    case Crash => true
    case StartUpload(up) => s.phase == Idle && names.allowed(up.name) && up.name !in s.mem
    case StartDelete(name) => s.phase == Idle && name in s.mem
    case _ => UploadEnabled(s, e, names) || DeleteEnabled(s, e, names)
  }

  /** The file system after a call that was to remove a path. */
  function Without(s: State, p: Path, ok: bool, next: Phase): State {
    s.(files := if ok then s.files - {p} else s.files, phase := next)
  }

  function UploadStep(s: State, e: Event, names: Names): State
    requires UploadEnabled(s, e, names)
  {
    match s.phase
    case Admitted(up) =>
      if e.MakeTemp? then s.(files := s.files[e.temp := []], phase := Writing(up, e.temp))
      else s.(files := if e.leak.Some? then s.files[e.leak.value := []] else s.files, phase := Idle)
    case Writing(up, temp) =>
      if e.Write? then s.(files := s.files[temp := up.payload[..e.total]])
      else s.(phase := if e.ok then Written(up, temp) else Abandoned(temp))
    case Written(up, temp) =>
      if e.ok then s.(files := s.files[up.Final() := s.files[temp]], phase := Linked(up, temp))
      else s.(phase := Abandoned(temp))
    case Linked(up, temp) => Without(s, temp, e.ok, if e.ok then Placed(up) else UnlinkFailed(up, temp))
    case UnlinkFailed(up, temp) => Without(s, up.Final(), e.ok, Abandoned(temp))
    case Abandoned(temp) => Without(s, temp, e.ok, Idle)
    case Placed(up) => s.(phase := if e.ok then Examined(up) else Refused(up))
    case Examined(up) =>
      if e.PersistFails? then s.(phase := Refused(up))
      else s.(durable := s.mem[up.name := up.dir], stored := s.stored[up.name := up.payload], phase := Recorded(up))
    case Recorded(up) => s.(mem := s.mem[up.name := up.dir], phase := Idle)
    case Refused(up) => Without(s, up.Final(), e.ok, Idle)
  }

  function DeleteStep(s: State, e: Event, names: Names): State
    requires DeleteEnabled(s, e, names)
  {
    match s.phase
    case Requested(name) =>
      s.(phase := if e.found == None then Idle else if e.found.value then Found(name) else MovedAway(name, None))
    case Found(name) =>
      if e.MakeTemp? then s.(files := s.files[e.temp := []], phase := Prepared(name, e.temp))
      else s.(files := if e.leak.Some? then s.files[e.leak.value := []] else s.files, phase := Idle)
    case Prepared(name, trash) => Without(s, trash, e.ok, Cleared(name, trash))
    case Cleared(name, trash) =>
      if e.ok then s.(files := s.files[trash := s.files[PathOf(s, name)]] - {PathOf(s, name)},
                      phase := MovedAway(name, Some(trash)))
      else s.(phase := Idle)
    case MovedAway(name, trash) =>
      if e.Commit? then s.(durable := s.mem - {name}, stored := s.stored - {name}, phase := Erased(name, trash))
      else s.(phase := if trash.Some? then EraseFailed(name, trash.value) else Idle)
    case EraseFailed(name, trash) =>
      if e.ok then s.(files := s.files[PathOf(s, name) := s.files[trash]] - {trash}, phase := Idle)
      else s.(phase := Idle)
    case Erased(name, trash) =>
      s.(mem := s.mem - {name}, phase := if trash.Some? then Doomed(trash.value) else Idle)
    case Doomed(trash) => Without(s, trash, e.ok, if e.ok then Idle else Spared(trash))
    case Spared(trash) => Without(s, trash, e.ok, Idle)
  }

  function Step(s: State, e: Event, names: Names): State
    requires Enabled(s, e, names)
  {
    match e
    case Crash => s.(mem := s.durable, phase := Idle)
    case StartUpload(up) => s.(phase := Admitted(up), before := Some(s.files))
    case StartDelete(name) => s.(phase := Requested(name), before := None)
    case _ => if UploadEnabled(s, e, names) then UploadStep(s, e, names) else DeleteStep(s, e, names)
  }

  /** The server starts on any files and an empty table. */
  function Initial(files: Files): State { State(files, map[], map[], Idle, map[], None) }

  function Execute(s: State, events: seq<Event>, names: Names): Option<State> {
    if |events| == 0 then Some(s) else
    var before := Execute(s, events[..|events| - 1], names);
    var e := events[|events| - 1];
    if before.Some? && Enabled(before.value, e, names) then Some(Step(before.value, e, names)) else None
  }

  ghost predicate Reaches(s: State, t: State, names: Names) {
    exists events :: Execute(s, events, names) == Some(t)
  }

  lemma ReachesItself(s: State, names: Names)
    ensures Reaches(s, s, names)
  {
    assert Execute(s, [], names) == Some(s);
  }

  lemma Go(s: State, t: State, e: Event, names: Names) returns (next: State)
    requires Reaches(s, t, names) && Enabled(t, e, names)
    ensures next == Step(t, e, names) && Reaches(s, next, names)
  {
    next := Step(t, e, names);
    var events :| Execute(s, events, names) == Some(t);
    assert (events + [e])[..|events|] == events;
    assert Execute(s, events + [e], names) == Some(next);
  }

  // ----- what a request may touch

  /** The paths the request in progress has made itself and may write or remove. */
  function Own(phase: Phase): set<Path> {
    match phase
    case Writing(_, temp) => {temp}
    case Written(_, temp) => {temp}
    case Linked(up, temp) => {temp, up.Final()}
    case UnlinkFailed(up, temp) => {temp, up.Final()}
    case Abandoned(temp) => {temp}
    case Placed(up) => {up.Final()}
    case Examined(up) => {up.Final()}
    case Refused(up) => {up.Final()}
    case Prepared(_, trash) => {trash}
    case Cleared(_, trash) => {trash}
    case Doomed(trash) => {trash}
    case Spared(trash) => {trash}
    case Erased(_, trash) => if trash.Some? then {trash.value} else {}
    case _ => {}
  }

  predicate IsTrashFor(s: State, trash: Path, name: string, names: Names)
    requires name in s.mem
  {
    trash.dir == s.mem[name] && names.trash(trash.name) && trash != PathOf(s, name)
  }

  /** What a phase says of files and tables. */
  ghost predicate PhaseInv(s: State, names: Names) {
    && (s.durable == match s.phase
        case Recorded(up) => s.mem[up.name := up.dir]
        case Erased(name, _) => s.mem - {name}
        case _ => s.mem)
    && match s.phase
       case Admitted(up) => up.name !in s.mem
       case Writing(up, temp) => up.name !in s.mem && temp in s.files && s.files[temp] <= up.payload
       case Written(up, temp) => up.name !in s.mem && temp in s.files && s.files[temp] == up.payload
       case Linked(up, temp) => up.name !in s.mem && temp != up.Final() && up.Final() in s.files && s.files[up.Final()] == up.payload
       case UnlinkFailed(up, temp) => up.name !in s.mem && temp != up.Final()
       case Placed(up) => up.name !in s.mem && up.Final() in s.files && s.files[up.Final()] == up.payload
       case Examined(up) => up.name !in s.mem && up.Final() in s.files && s.files[up.Final()] == up.payload
       case Refused(up) => up.name !in s.mem
       case Recorded(up) => up.name !in s.mem && up.Final() in s.files && s.files[up.Final()] == up.payload
       case Requested(name) => name in s.mem
       case Found(name) => name in s.mem && PathOf(s, name) in s.files
       case Prepared(name, trash) => name in s.mem && PathOf(s, name) in s.files && IsTrashFor(s, trash, name, names)
       case Cleared(name, trash) => name in s.mem && PathOf(s, name) in s.files && IsTrashFor(s, trash, name, names)
       case MovedAway(name, trash) =>
         && name in s.mem && PathOf(s, name) !in s.files
         && (trash.Some? ==> trash.value in s.files && IsTrashFor(s, trash.value, name, names))
       case EraseFailed(name, trash) =>
         name in s.mem && PathOf(s, name) !in s.files && trash in s.files && IsTrashFor(s, trash, name, names)
       case Erased(name, _) => name in s.mem
       case _ => true
  }

  lemma UploadKeepsPhaseInv(s: State, e: Event, names: Names)
    requires PhaseInv(s, names) && UploadEnabled(s, e, names)
    ensures PhaseInv(UploadStep(s, e, names), names)
  {
  }

  lemma DeleteKeepsPhaseInv(s: State, e: Event, names: Names)
    requires PhaseInv(s, names) && DeleteEnabled(s, e, names)
    ensures PhaseInv(DeleteStep(s, e, names), names)
  {
  }

  /** Requests begin and the process dies between the steps of the two transactions. */
  predicate Outside(e: Event) { e.Crash? || e.StartUpload? || e.StartDelete? }

  lemma StepOfTransaction(s: State, e: Event, names: Names)
    requires Enabled(s, e, names) && !Outside(e)
    ensures UploadEnabled(s, e, names) || DeleteEnabled(s, e, names)
    ensures Step(s, e, names) == if UploadEnabled(s, e, names) then UploadStep(s, e, names) else DeleteStep(s, e, names)
  {
  }

  lemma OutsideKeepsPhaseInv(s: State, e: Event, names: Names)
    requires PhaseInv(s, names) && Enabled(s, e, names) && Outside(e)
    ensures PhaseInv(Step(s, e, names), names)
  {
  }

  lemma StepKeepsPhaseInv(s: State, e: Event, names: Names)
    requires PhaseInv(s, names) && Enabled(s, e, names)
    ensures PhaseInv(Step(s, e, names), names)
  {
    if Outside(e) {
      OutsideKeepsPhaseInv(s, e, names);
    } else {
      StepOfTransaction(s, e, names);
      if UploadEnabled(s, e, names) { UploadKeepsPhaseInv(s, e, names); } else { DeleteKeepsPhaseInv(s, e, names); }
    }
  }

  /** The two steps that take a stored file from its path to the trash and back. */
  predicate MovesFile(s: State, e: Event) { (s.phase.Cleared? || s.phase.EraseFailed?) && (e.Move? || e.Restore?) && e.ok }

  /** Every other step leaves alone what the request has not made itself, and what it comes to own
      did not exist before, or is what it took away from a name it has just erased. */
  ghost predicate TouchesOwn(s: State, t: State) {
    && (forall p :: p in s.files && p !in Own(s.phase) ==> p in t.files && t.files[p] == s.files[p])
    && (forall p :: p in Own(t.phase) && p !in Own(s.phase) ==> p !in s.files || s.phase.MovedAway?)
  }

  /** The phases of an upload up to its link. */
  predicate Unlinked(phase: Phase) { phase.Admitted? || phase.Writing? || phase.Written? }

  lemma UnlinkedTouchesOwn(s: State, e: Event, names: Names)
    requires UploadEnabled(s, e, names) && Unlinked(s.phase)
    ensures TouchesOwn(s, UploadStep(s, e, names))
  {
  }

  lemma LinkedTouchesOwn(s: State, e: Event, names: Names)
    requires UploadEnabled(s, e, names) && !Unlinked(s.phase)
    ensures TouchesOwn(s, UploadStep(s, e, names))
  {
  }

  lemma UploadTouchesOwn(s: State, e: Event, names: Names)
    requires UploadEnabled(s, e, names)
    ensures TouchesOwn(s, UploadStep(s, e, names))
  {
    if Unlinked(s.phase) {
      UnlinkedTouchesOwn(s, e, names);
    } else {
      LinkedTouchesOwn(s, e, names);
    }
  }

  /** The phases of a delete up to the file's move. */
  predicate Unmoved(phase: Phase) { phase.Requested? || phase.Found? || phase.Prepared? || phase.Cleared? }

  lemma UnmovedTouchesOwn(s: State, e: Event, names: Names)
    requires DeleteEnabled(s, e, names) && !MovesFile(s, e) && Unmoved(s.phase)
    ensures TouchesOwn(s, DeleteStep(s, e, names))
  {
  }

  lemma MovedTouchesOwn(s: State, e: Event, names: Names)
    requires DeleteEnabled(s, e, names) && !MovesFile(s, e) && !Unmoved(s.phase)
    ensures TouchesOwn(s, DeleteStep(s, e, names))
  {
  }

  lemma DeleteTouchesOwn(s: State, e: Event, names: Names)
    requires DeleteEnabled(s, e, names) && !MovesFile(s, e)
    ensures TouchesOwn(s, DeleteStep(s, e, names))
  {
    if Unmoved(s.phase) {
      UnmovedTouchesOwn(s, e, names);
    } else {
      MovedTouchesOwn(s, e, names);
    }
  }

  predicate Deleting(phase: Phase) {
    phase.Requested? || phase.Found? || phase.Prepared? || phase.Cleared? || phase.MovedAway? || phase.EraseFailed?
    || phase.Erased? || phase.Doomed? || phase.Spared?
  }

  /** The files from before the upload are all still there, and none of them is its own. */
  ghost predicate FrameInv(s: State) {
    s.before.Some? ==>
      && !Deleting(s.phase)
      && forall p :: p in s.before.value ==> p in s.files && s.files[p] == s.before.value[p] && p !in Own(s.phase)
  }

  lemma UnlinkedStaysUpload(s: State, e: Event, names: Names)
    requires UploadEnabled(s, e, names) && Unlinked(s.phase)
    ensures UploadStep(s, e, names).before == s.before && !Deleting(UploadStep(s, e, names).phase)
  {
  }

  lemma LinkedStaysUpload(s: State, e: Event, names: Names)
    requires UploadEnabled(s, e, names) && !Unlinked(s.phase)
    ensures UploadStep(s, e, names).before == s.before && !Deleting(UploadStep(s, e, names).phase)
  {
  }

  lemma UploadStaysUpload(s: State, e: Event, names: Names)
    requires UploadEnabled(s, e, names)
    ensures UploadStep(s, e, names).before == s.before
    ensures !Deleting(s.phase) && !Deleting(UploadStep(s, e, names).phase)
  {
    if Unlinked(s.phase) {
      UnlinkedStaysUpload(s, e, names);
    } else {
      LinkedStaysUpload(s, e, names);
    }
  }

  lemma DeleteStaysDelete(s: State, e: Event, names: Names)
    requires DeleteEnabled(s, e, names)
    ensures Deleting(s.phase) && DeleteStep(s, e, names).before == s.before
  {
  }

  /** The two transactions have no phase in common. */
  lemma EnabledInMachine(s: State, e: Event, names: Names)
    requires UploadEnabled(s, e, names) || DeleteEnabled(s, e, names)
    ensures Enabled(s, e, names)
    ensures UploadEnabled(s, e, names) ==> Step(s, e, names) == UploadStep(s, e, names)
    ensures DeleteEnabled(s, e, names) ==> Step(s, e, names) == DeleteStep(s, e, names)
  {
    if UploadEnabled(s, e, names) {
      UploadStaysUpload(s, e, names);
    }
    if DeleteEnabled(s, e, names) {
      DeleteStaysDelete(s, e, names);
    }
  }

  lemma FrameStays(s: State, t: State)
    requires FrameInv(s) && TouchesOwn(s, t)
    requires t.before == s.before && !s.phase.MovedAway? && !Deleting(t.phase)
    ensures FrameInv(t)
  {
  }

  lemma OutsideKeepsFrameInv(s: State, e: Event, names: Names)
    requires FrameInv(s) && Enabled(s, e, names) && Outside(e)
    ensures FrameInv(Step(s, e, names))
  {
  }

  lemma StepKeepsFrameInv(s: State, e: Event, names: Names)
    requires FrameInv(s) && Enabled(s, e, names)
    ensures FrameInv(Step(s, e, names))
  {
    if Outside(e) {
      OutsideKeepsFrameInv(s, e, names);
    } else {
      StepOfTransaction(s, e, names);
      if UploadEnabled(s, e, names) {
        UploadTouchesOwn(s, e, names);
        UploadStaysUpload(s, e, names);
        FrameStays(s, UploadStep(s, e, names));
      } else {
        DeleteStaysDelete(s, e, names);
      }
    }
  }

  // ----- where the stored bytes are

  type Locations = map<string, Path>

  /** Names that uploads may have: no two different ones of which the first looks like trash. */
  ghost predicate Safe(names: Names) {
    forall n, m :: names.allowed(n) && names.allowed(m) && n != m ==> !names.trash(n)
  }

  function UploadOf(phase: Phase): Option<Upload> {
    match phase
    case Admitted(up) => Some(up)
    case Writing(up, _) => Some(up)
    case Written(up, _) => Some(up)
    case Linked(up, _) => Some(up)
    case UnlinkFailed(up, _) => Some(up)
    case Placed(up) => Some(up)
    case Examined(up) => Some(up)
    case Recorded(up) => Some(up)
    case Refused(up) => Some(up)
    case _ => None
  }

  ghost predicate NamesInv(s: State, names: Names) {
    && (forall n :: n in s.mem || n in s.durable ==> names.allowed(n))
    && (UploadOf(s.phase).Some? ==> names.allowed(UploadOf(s.phase).value.name))
  }

  predicate IsPlaceOf(p: Path, name: string, dir: Dir, names: Names) {
    p.dir == dir && (p.name == name || names.trash(p.name))
  }

  ghost predicate Distinct(loc: Locations) { forall n, m :: n in loc && m in loc && n != m ==> loc[n] != loc[m] }

  /** A file of its own for each durable name, with the bytes its upload stored: at the name's path,
      or under a trash name in the same directory. */
  ghost predicate Held(files: Files, durable: Table, stored: map<string, Bytes>, loc: Locations, names: Names) {
    && loc.Keys == durable.Keys == stored.Keys
    && (forall n :: n in loc ==> loc[n] in files && files[loc[n]] == stored[n] && IsPlaceOf(loc[n], n, durable[n], names))
    && Distinct(loc)
  }

  ghost predicate KeepsBytes(s: State, names: Names) { exists loc :: Held(s.files, s.durable, s.stored, loc, names) }

  lemma HeldWith(files: Files, durable: Table, stored: map<string, Bytes>, loc: Locations, up: Upload,
                 names: Names)
    requires Held(files, durable, stored, loc, names)
    requires up.Final() in files && files[up.Final()] == up.payload
    requires forall n :: n in loc ==> loc[n] != up.Final()
    ensures Held(files, durable[up.name := up.dir], stored[up.name := up.payload], loc[up.name := up.Final()], names)
  {
  }

  lemma HeldWithout(files: Files, durable: Table, stored: map<string, Bytes>, loc: Locations, name: string,
                    names: Names)
    requires Held(files, durable, stored, loc, names)
    ensures Held(files, durable - {name}, stored - {name}, loc - {name}, names)
  {
  }

  function Renamed(files: Files, from: Path, to: Path): Files
    requires from in files
  {
    files[to := files[from]] - {from}
  }

  function Relocated(loc: Locations, name: string, from: Path, to: Path): Locations {
    if name in loc && loc[name] == from then loc[name := to] else loc
  }

  lemma RelocatedIsDistinct(loc: Locations, name: string, from: Path, to: Path)
    requires Distinct(loc) && forall n :: n in loc ==> loc[n] != to
    ensures Distinct(Relocated(loc, name, from, to))
  {
  }

  /** Renaming a file that is at most this name's own, onto a path that is nobody's. */
  lemma HeldAfterRename(files: Files, durable: Table, stored: map<string, Bytes>, loc: Locations,
                        name: string, from: Path, to: Path, names: Names)
    requires Held(files, durable, stored, loc, names) && from in files && to != from
    requires name in durable && IsPlaceOf(to, name, durable[name], names)
    requires forall n :: n in loc ==> loc[n] != to && (n != name ==> loc[n] != from)
    ensures Held(Renamed(files, from, to), durable, stored, Relocated(loc, name, from, to), names)
  {
    var later := Relocated(loc, name, from, to);
    RelocatedIsDistinct(loc, name, from, to);
    assert later.Keys == loc.Keys;
    forall n | n in later
      ensures later[n] in Renamed(files, from, to) && Renamed(files, from, to)[later[n]] == stored[n]
      ensures IsPlaceOf(later[n], n, durable[n], names)
    {
      assert n == name || later[n] == loc[n];
    }
  }

  lemma HeldIfUntouched(files: Files, later: Files, durable: Table, stored: map<string, Bytes>, loc: Locations,
                        names: Names)
    requires Held(files, durable, stored, loc, names)
    requires forall n :: n in loc && loc[n] in files ==> loc[n] in later && later[loc[n]] == files[loc[n]]
    ensures Held(later, durable, stored, loc, names)
  {
  }

  /** Nothing the request may remove is anybody's file, and its trash is at most its own name's. */
  ghost predicate Apart(phase: Phase, loc: Locations) {
    && (forall n :: n in loc ==> loc[n] !in Own(phase))
    && (phase.MovedAway? ==> forall n :: n in loc && n != phase.name ==> Some(loc[n]) != phase.kept)
    && (phase.EraseFailed? ==> forall n :: n in loc && n != phase.name ==> loc[n] != phase.trash)
  }

  ghost predicate LossInv(s: State, loc: Locations, names: Names) {
    Held(s.files, s.durable, s.stored, loc, names) && Apart(s.phase, loc)
  }

  /** With safe names, what stands at a name's path is no other name's file. */
  lemma PathIsOwn(s: State, loc: Locations, names: Names, name: string, n: string)
    requires Safe(names) && NamesInv(s, names) && Held(s.files, s.durable, s.stored, loc, names)
    requires name in s.mem && n in loc && n != name
    ensures loc[n] != PathOf(s, name)
  {
    assert names.allowed(n) && names.allowed(name);
  }

  lemma ApartAfterMove(loc: Locations, name: string, from: Path, trash: Path)
    requires forall n :: n in loc ==> loc[n] != trash
    ensures Apart(MovedAway(name, Some(trash)), Relocated(loc, name, from, trash))
  {
  }

  lemma MoveKeepsLossInv(s: State, e: Event, loc: Locations, names: Names) returns (later: Locations)
    requires Safe(names) && NamesInv(s, names) && PhaseInv(s, names) && LossInv(s, loc, names)
    requires s.phase.Cleared? && DeleteEnabled(s, e, names) && e.ok
    ensures LossInv(DeleteStep(s, e, names), later, names)
  {
    var Cleared(name, trash) := s.phase;
    forall n | n in loc && n != name
      ensures loc[n] != PathOf(s, name)
    {
      PathIsOwn(s, loc, names, name, n);
    }
    HeldAfterRename(s.files, s.durable, s.stored, loc, name, PathOf(s, name), trash, names);
    ApartAfterMove(loc, name, PathOf(s, name), trash);
    later := Relocated(loc, name, PathOf(s, name), trash);
  }

  lemma RestoreKeepsLossInv(s: State, e: Event, loc: Locations, names: Names) returns (later: Locations)
    requires PhaseInv(s, names) && LossInv(s, loc, names)
    requires s.phase.EraseFailed? && DeleteEnabled(s, e, names) && e.ok
    ensures LossInv(DeleteStep(s, e, names), later, names)
  {
    var EraseFailed(name, trash) := s.phase;
    HeldAfterRename(s.files, s.durable, s.stored, loc, name, trash, PathOf(s, name), names);
    later := Relocated(loc, name, trash, PathOf(s, name));
  }

  lemma RecordKeepsLossInv(s: State, loc: Locations, names: Names) returns (later: Locations)
    requires PhaseInv(s, names) && LossInv(s, loc, names) && s.phase.Examined?
    ensures LossInv(UploadStep(s, Commit, names), later, names)
  {
    HeldWith(s.files, s.durable, s.stored, loc, s.phase.up, names);
    later := loc[s.phase.up.name := s.phase.up.Final()];
  }

  lemma ApartAfterErase(loc: Locations, name: string, kept: Option<Path>)
    requires Apart(MovedAway(name, kept), loc)
    ensures Apart(Erased(name, kept), loc - {name})
  {
  }

  lemma EraseKeepsLossInv(s: State, loc: Locations, names: Names) returns (later: Locations)
    requires PhaseInv(s, names) && LossInv(s, loc, names) && s.phase.MovedAway?
    ensures LossInv(DeleteStep(s, Commit, names), later, names)
  {
    var MovedAway(name, kept) := s.phase;
    HeldWithout(s.files, s.durable, s.stored, loc, name, names);
    ApartAfterErase(loc, name, kept);
    later := loc - {name};
    assert s.durable == s.mem;
    assert DeleteStep(s, Commit, names)
        == s.(durable := s.durable - {name}, stored := s.stored - {name}, phase := Erased(name, kept));
  }

  lemma TouchingOwnKeepsLossInv(s: State, t: State, loc: Locations, names: Names)
    requires LossInv(s, loc, names) && TouchesOwn(s, t)
    requires t.durable == s.durable && t.stored == s.stored
    requires t.phase.MovedAway? ==> t.phase.kept == None
    requires t.phase.EraseFailed? ==> s.phase == MovedAway(t.phase.name, Some(t.phase.trash))
    requires s.phase.MovedAway? ==> Own(t.phase) == {}
    ensures LossInv(t, loc, names)
  {
    HeldIfUntouched(s.files, t.files, s.durable, s.stored, loc, names);
  }

  lemma UploadKeepsNamesInv(s: State, e: Event, names: Names)
    requires NamesInv(s, names) && UploadEnabled(s, e, names)
    ensures NamesInv(UploadStep(s, e, names), names)
  {
  }

  lemma DeleteKeepsNamesInv(s: State, e: Event, names: Names)
    requires NamesInv(s, names) && DeleteEnabled(s, e, names)
    ensures NamesInv(DeleteStep(s, e, names), names)
  {
  }

  lemma OutsideKeepsNamesInv(s: State, e: Event, names: Names)
    requires NamesInv(s, names) && Enabled(s, e, names) && Outside(e)
    ensures NamesInv(Step(s, e, names), names)
  {
  }

  lemma StepKeepsNamesInv(s: State, e: Event, names: Names)
    requires NamesInv(s, names) && Enabled(s, e, names)
    ensures NamesInv(Step(s, e, names), names)
  {
    if Outside(e) {
      OutsideKeepsNamesInv(s, e, names);
    } else {
      StepOfTransaction(s, e, names);
      if UploadEnabled(s, e, names) {
        UploadKeepsNamesInv(s, e, names);
      } else {
        DeleteKeepsNamesInv(s, e, names);
      }
    }
  }

  lemma UploadKeepsLossInv(s: State, e: Event, loc: Locations, names: Names) returns (later: Locations)
    requires PhaseInv(s, names) && LossInv(s, loc, names) && UploadEnabled(s, e, names)
    ensures LossInv(UploadStep(s, e, names), later, names)
  {
    if e.Commit? {
      later := RecordKeepsLossInv(s, loc, names);
    } else {
      later := loc;
      UploadTouchesOwn(s, e, names);
      UploadStaysUpload(s, e, names);
      TouchingOwnKeepsLossInv(s, UploadStep(s, e, names), loc, names);
    }
  }

  lemma DeleteWithoutCommit(s: State, e: Event, names: Names)
    requires DeleteEnabled(s, e, names) && !e.Commit? && !MovesFile(s, e)
    ensures var t := DeleteStep(s, e, names);
            && t.durable == s.durable && t.stored == s.stored
            && (t.phase.MovedAway? ==> t.phase.kept == None)
            && (t.phase.EraseFailed? ==> s.phase == MovedAway(t.phase.name, Some(t.phase.trash)))
            && (s.phase.MovedAway? ==> Own(t.phase) == {})
  {
  }

  lemma DeleteKeepsLossInv(s: State, e: Event, loc: Locations, names: Names) returns (later: Locations)
    requires Safe(names) && NamesInv(s, names)
    requires PhaseInv(s, names) && LossInv(s, loc, names) && DeleteEnabled(s, e, names)
    ensures LossInv(DeleteStep(s, e, names), later, names)
  {
    if e.Commit? {
      later := EraseKeepsLossInv(s, loc, names);
    } else if !MovesFile(s, e) {
      later := loc;
      DeleteTouchesOwn(s, e, names);
      DeleteWithoutCommit(s, e, names);
      TouchingOwnKeepsLossInv(s, DeleteStep(s, e, names), loc, names);
    } else if s.phase.Cleared? {
      later := MoveKeepsLossInv(s, e, loc, names);
    } else {
      later := RestoreKeepsLossInv(s, e, loc, names);
    }
  }

  lemma OutsideChangesNoFile(s: State, e: Event, names: Names)
    requires Enabled(s, e, names) && Outside(e)
    ensures var t := Step(s, e, names);
            && t.files == s.files && t.durable == s.durable && t.stored == s.stored
            && Own(t.phase) == {} && !t.phase.MovedAway? && !t.phase.EraseFailed?
  {
  }

  lemma NothingOwnedIsApart(phase: Phase, loc: Locations)
    requires Own(phase) == {} && !phase.MovedAway? && !phase.EraseFailed?
    ensures Apart(phase, loc)
  {
  }

  lemma OutsideKeepsLossInv(s: State, e: Event, loc: Locations, names: Names)
    requires LossInv(s, loc, names) && Enabled(s, e, names) && Outside(e)
    ensures LossInv(Step(s, e, names), loc, names)
  {
    OutsideChangesNoFile(s, e, names);
    NothingOwnedIsApart(Step(s, e, names).phase, loc);
  }

  lemma StepKeepsLossInv(s: State, e: Event, loc: Locations, names: Names) returns (later: Locations)
    requires Safe(names) && NamesInv(s, names)
    requires PhaseInv(s, names) && LossInv(s, loc, names) && Enabled(s, e, names)
    ensures LossInv(Step(s, e, names), later, names)
  {
    if Outside(e) {
      OutsideKeepsLossInv(s, e, loc, names);
      later := loc;
    } else {
      StepOfTransaction(s, e, names);
      if UploadEnabled(s, e, names) {
        later := UploadKeepsLossInv(s, e, loc, names);
      } else {
        later := DeleteKeepsLossInv(s, e, loc, names);
      }
    }
  }

  ghost predicate Inv(s: State, names: Names) { PhaseInv(s, names) && NamesInv(s, names) && FrameInv(s) }

  lemma {:induction false} RunKeepsInv(files: Files, events: seq<Event>, names: Names)
    requires Execute(Initial(files), events, names).Some?
    ensures Inv(Execute(Initial(files), events, names).value, names)
  {
    if |events| > 0 {
      var e := events[|events| - 1];
      RunKeepsInv(files, events[..|events| - 1], names);
      var s := Execute(Initial(files), events[..|events| - 1], names).value;
      StepKeepsPhaseInv(s, e, names);
      StepKeepsNamesInv(s, e, names);
      StepKeepsFrameInv(s, e, names);
    }
  }

  lemma {:induction false} RunKeepsLossInv(files: Files, events: seq<Event>, names: Names) returns (loc: Locations)
    requires Safe(names) && Execute(Initial(files), events, names).Some?
    ensures LossInv(Execute(Initial(files), events, names).value, loc, names)
  {
    if |events| == 0 {
      loc := map[];
    } else {
      var e := events[|events| - 1];
      loc := RunKeepsLossInv(files, events[..|events| - 1], names);
      RunKeepsInv(files, events[..|events| - 1], names);
      loc := StepKeepsLossInv(Execute(Initial(files), events[..|events| - 1], names).value, e, loc, names);
    }
  }

  // ----- what follows

  /** No loss: whatever calls fail and wherever the process dies, each durable name has a file of
      its own with its stored bytes, at its path or under a trash name in the same directory. */
  lemma NothingIsLost(files: Files, s: State, names: Names)
    requires Safe(names) && Reaches(Initial(files), s, names)
    ensures KeepsBytes(s, names)
  {
    var events :| Execute(Initial(files), events, names) == Some(s);
    var loc := RunKeepsLossInv(files, events, names);
  }

  /** No upload, successful or not, changes or removes a file that was there before it. */
  lemma UploadsTouchNothing(files: Files, s: State, names: Names)
    requires Reaches(Initial(files), s, names) && s.before.Some?
    ensures forall p :: p in s.before.value ==> p in s.files && s.files[p] == s.before.value[p]
  {
    var events :| Execute(Initial(files), events, names) == Some(s);
    RunKeepsInv(files, events, names);
  }

  /** Memory and snapshot agree except between a snapshot's rename and the swap, and there they
      differ by the one name of the request. */
  lemma TablesAgree(files: Files, s: State, names: Names)
    requires Reaches(Initial(files), s, names)
    ensures s.durable == s.mem <==> !s.phase.Recorded? && !s.phase.Erased?
    ensures s.phase.Recorded? ==> s.durable == s.mem[s.phase.up.name := s.phase.up.dir]
    ensures s.phase.Erased? ==> s.durable == s.mem - {s.phase.name}
  {
    var events :| Execute(Initial(files), events, names) == Some(s);
    RunKeepsInv(files, events, names);
    if s.phase.Recorded? {
      assert s.phase.up.name in s.durable;
    } else if s.phase.Erased? {
      assert s.phase.name !in s.durable;
    }
  }

  /** A name becomes durable only when its file is complete at its path. */
  lemma RecordedIsComplete(files: Files, s: State, names: Names)
    requires Reaches(Initial(files), s, names) && s.phase.Recorded?
    ensures var up := s.phase.up; up.Final() in s.files && s.files[up.Final()] == up.payload
  {
    var events :| Execute(Initial(files), events, names) == Some(s);
    RunKeepsInv(files, events, names);
  }

  // ----- why the names must be safe

  lemma GoUpload(start: State, s: State, e: Event, names: Names) returns (next: State)
    requires Reaches(start, s, names) && UploadEnabled(s, e, names)
    ensures next == UploadStep(s, e, names) && Reaches(start, next, names)
  {
    EnabledInMachine(s, e, names);
    next := Go(start, s, e, names);
  }

  lemma GoDelete(start: State, s: State, e: Event, names: Names) returns (next: State)
    requires Reaches(start, s, names) && DeleteEnabled(s, e, names)
    ensures next == DeleteStep(s, e, names) && Reaches(start, next, names)
  {
    EnabledInMachine(s, e, names);
    next := Go(start, s, e, names);
  }

  /** An upload as far as its complete temporary file, without a failure. */
  lemma WriteTemp(start: State, s: State, up: Upload, temp: Path, names: Names) returns (t: State)
    requires Reaches(start, s, names) && s.phase == Idle && names.allowed(up.name) && up.name !in s.mem
    requires FreshTemp(s.files, temp, up.dir, names.upload)
    ensures Reaches(start, t, names)
    ensures t == s.(files := s.files[temp := up.payload], phase := Written(up, temp), before := Some(s.files))
  {
    t := Go(start, s, StartUpload(up), names);
    t := GoUpload(start, t, MakeTemp(temp), names);
    if up.payload != [] {
      t := GoUpload(start, t, Write(|up.payload|), names);
      assert up.payload[..|up.payload|] == up.payload;
    }
    assert t.files == s.files[temp := up.payload];
    t := GoUpload(start, t, WriteEnds(true), names);
  }

  /** The rest of it, without a failure either. */
  lemma QuietUpload(start: State, s: State, up: Upload, temp: Path, names: Names) returns (t: State)
    requires Reaches(start, s, names) && s.phase == Idle && s.durable == s.mem
    requires names.allowed(up.name) && up.name !in s.mem && up.Final() !in s.files
    requires FreshTemp(s.files, temp, up.dir, names.upload) && temp != up.Final()
    ensures Reaches(start, t, names) && t.phase == Idle && t.durable == t.mem == s.mem[up.name := up.dir]
    ensures t.files == s.files[up.Final() := up.payload] && t.stored == s.stored[up.name := up.payload]
  {
    t := WriteTemp(start, s, up, temp, names);
    t := GoUpload(start, t, Link(true), names);
    t := GoUpload(start, t, UnlinkTemp(true), names);
    assert t.files == s.files[up.Final() := up.payload];
    t := GoUpload(start, t, Examine(true), names);
    t := GoUpload(start, t, Commit, names);
    t := GoUpload(start, t, Swap, names);
  }

  /** A delete as far as the file's move to the trash, without a failure. */
  lemma MoveToTrash(start: State, s: State, name: string, trash: Path, names: Names) returns (t: State)
    requires Reaches(start, s, names) && s.phase == Idle && name in s.mem && PathOf(s, name) in s.files
    requires FreshTemp(s.files, trash, s.mem[name], names.trash)
    ensures Reaches(start, t, names)
    ensures t == s.(files := Renamed(s.files, PathOf(s, name), trash), phase := MovedAway(name, Some(trash)), before := None)
  {
    t := Go(start, s, StartDelete(name), names);
    t := GoDelete(start, t, Probe(Some(true)), names);
    t := GoDelete(start, t, MakeTemp(trash), names);
    t := GoDelete(start, t, ClearTrash(true), names);
    assert t.files == s.files;
    t := GoDelete(start, t, Move(true), names);
  }

  /** A delete whose snapshot cannot be saved and whose file cannot be put back. */
  lemma StrandedDelete(start: State, s: State, name: string, trash: Path, names: Names) returns (t: State)
    requires Reaches(start, s, names) && s.phase == Idle && name in s.mem && PathOf(s, name) in s.files
    requires FreshTemp(s.files, trash, s.mem[name], names.trash)
    ensures Reaches(start, t, names)
    ensures t == s.(files := Renamed(s.files, PathOf(s, name), trash), before := None)
  {
    t := MoveToTrash(start, s, name, trash, names);
    t := GoDelete(start, t, PersistFails, names);
    t := GoDelete(start, t, Restore(false), names);
  }

  /** A delete in which nothing fails. */
  lemma QuietDelete(start: State, s: State, name: string, trash: Path, names: Names) returns (t: State)
    requires Reaches(start, s, names) && s.phase == Idle && s.durable == s.mem
    requires name in s.mem && PathOf(s, name) in s.files
    requires FreshTemp(s.files, trash, s.mem[name], names.trash)
    ensures Reaches(start, t, names) && t.phase == Idle && t.durable == t.mem == s.mem - {name}
    ensures t.files == s.files - {PathOf(s, name)} && t.stored == s.stored - {name}
  {
    t := MoveToTrash(start, s, name, trash, names);
    t := GoDelete(start, t, Commit, names);
    t := GoDelete(start, t, Swap, names);
    t := GoDelete(start, t, Remove(true), names);
  }

  /** A name n of the trash's own shape: n and another name m are uploaded; both deletes strand
      their files, m's on the path of n, because mkstemp may choose it; and n is deleted once more,
      this time successfully, with m's bytes. */
  lemma ShapedNameCanLose(names: Names, n: string, m: string, u: string, t1: string, t2: string) returns (t: State)
    requires names.allowed(n) && names.allowed(m) && n != m && names.trash(n)
    requires names.upload(u) && u !in {n, m}
    requires names.trash(t1) && t1 !in {n, m} && names.trash(t2) && t2 !in {n, m, t1}
    ensures Reaches(Initial(map[]), t, names) && !KeepsBytes(t, names)
  {
    var start := Initial(map[]);
    ReachesItself(start, names);
    t := QuietUpload(start, start, Upload(n, Low, []), Path(Low, u), names);
    t := QuietUpload(start, t, Upload(m, Low, [1]), Path(Low, u), names);
    assert t.files == map[Path(Low, n) := [], Path(Low, m) := [1]];
    t := StrandedDelete(start, t, n, Path(Low, t1), names);
    assert t.files == map[Path(Low, t1) := [], Path(Low, m) := [1]];
    t := StrandedDelete(start, t, m, Path(Low, n), names);
    assert t.files == map[Path(Low, t1) := [], Path(Low, n) := [1]];
    t := QuietDelete(start, t, n, Path(Low, t2), names);
    assert t.files == map[Path(Low, t1) := []];
    assert m in t.durable && t.stored[m] == [1];
  }

  function Filled(prefix: string, c: char): string { prefix + [c, c, c, c, c, c] }

  lemma FilledFits(prefix: string, c: char)
    requires IsLetter(c)
    ensures FitsTemplate(Filled(prefix, c), prefix)
    ensures Filled(prefix, c)[|prefix|] == c
  {
  }

  /** A template has a name besides any three. */
  lemma AnotherName(prefix: string, a: string, b: string, c: string) returns (name: string)
    ensures FitsTemplate(name, prefix) && name !in {a, b, c}
  {
    FilledFits(prefix, '0');
    FilledFits(prefix, '1');
    FilledFits(prefix, '2');
    FilledFits(prefix, '3');
    name := Filled(prefix, if Filled(prefix, '0') !in {a, b, c} then '0' else if Filled(prefix, '1') !in {a, b, c} then '1'
                           else if Filled(prefix, '2') !in {a, b, c} then '2' else '3');
  }

  /** The server loses nothing in any run exactly if no name it accepts, beside another, has the
      shape of its trash. */
  lemma NoLossExactlyForSafeNames(allowed: string -> bool)
    ensures (forall files, s :: Reaches(Initial(files), s, ServerNames(allowed)) ==> KeepsBytes(s, ServerNames(allowed)))
       <==> Safe(ServerNames(allowed))
  {
    var names := ServerNames(allowed);
    if Safe(names) {
      forall files, s | Reaches(Initial(files), s, names)
        ensures KeepsBytes(s, names)
      {
        NothingIsLost(files, s, names);
      }
    } else {
      var n, m :| names.allowed(n) && names.allowed(m) && n != m && names.trash(n);
      var u := AnotherName(".upload-", n, m, m);
      var t1 := AnotherName(".delete-", n, m, m);
      var t2 := AnotherName(".delete-", n, m, t1);
      var t := ShapedNameCanLose(names, n, m, u, t1, t2);
    }
  }
}
