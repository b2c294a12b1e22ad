/** The request handlers that store and delete files, call by call in the order the server makes
 them. Each system call may fail, and each call taken is a step of the machine of StorageTransaction. */
module StorageService {
  import opened Collections
  import StoragePaths
  import opened StorageTransaction

  datatype Reply = Created | Deleted | BadRequest | NotFound | Conflict | ServerError

  /** The file names an upload may carry. */
  predicate IsSafeFileName(name: string) {
    && 0 < |name| <= 255 && name != "." && name != ".."
    && forall i :: 0 <= i < |name| ==> name[i] != '/' && name[i] != '\\' && name[i] >= ' ' && name[i] != '\U{7f}'
  }

  /** What was in a file that is gone does not matter. */
  lemma Forgotten(files: Files, temp: Path, content: Bytes, up: Upload)
    ensures files[temp := content] - {temp} == files - {temp}
    ensures files[temp := content][up.Final() := up.payload] - {temp} == files[up.Final() := up.payload] - {temp}
  {
  }

  /** What moving a file over a placeholder in the trash amounts to, and undoing it. */
  lemma ThereAndBack(files: Files, path: Path, trash: Path)
    requires path in files && trash !in files
    ensures var moved := Renamed(files[trash := []], path, trash);
            && moved == Renamed(files - {trash}, path, trash)
            && moved == files[trash := files[path]] - {path}
            && moved - {trash} == files - {path}
            && Renamed(moved, trash, path) == files
  {
  }

  class Service {
    const names: Names
    var files: Files
    var mem: Table
    var durable: Table
    ghost const start: Files        // the files the server first started on
    ghost var world: State
    ghost var trace: seq<Event>     // every step since
    ghost var failures: nat         // how many system calls have failed

    /** The server is where the machine's run is. */
    ghost predicate Valid()
      reads this
    {
      && Execute(Initial(start), trace, names) == Some(world)
      && world.files == files && world.mem == mem && world.durable == durable
    }

    constructor (found: Files, n: Names)
      ensures Valid() && world == Initial(found) && names == n
    {
      names, files, mem, durable, start := n, found, map[], map[], found;
      world, trace, failures := Initial(found), [], 0;
    }

    /** The machine takes the step that the server has just taken. */
    ghost method Follow(e: Event)
      requires Execute(Initial(start), trace, names) == Some(world) && Enabled(world, e, names)
      requires var t := Step(world, e, names); t.files == files && t.mem == mem && t.durable == durable
      modifies this`world, this`trace
      ensures Valid() && world == Step(old(world), e, names)
    {
      assert (trace + [e])[..|trace|] == trace;
      world, trace := Step(world, e, names), trace + [e];
    }

    ghost method FollowUpload(e: Event)
      requires Execute(Initial(start), trace, names) == Some(world) && UploadEnabled(world, e, names)
      requires var t := UploadStep(world, e, names); t.files == files && t.mem == mem && t.durable == durable
      modifies this`world, this`trace
      ensures Valid() && world == UploadStep(old(world), e, names) && world.before == old(world.before)
    {
      EnabledInMachine(world, e, names);
      UploadStaysUpload(world, e, names);
      Follow(e);
    }

    ghost method FollowDelete(e: Event)
      requires Execute(Initial(start), trace, names) == Some(world) && DeleteEnabled(world, e, names)
      requires var t := DeleteStep(world, e, names); t.files == files && t.mem == mem && t.durable == durable
      modifies this`world, this`trace
      ensures Valid() && world == DeleteStep(old(world), e, names)
    {
      EnabledInMachine(world, e, names);
      Follow(e);
    }

    /** A call that changes no file: stat, or one whose effect is not modelled. */
    method SystemCall() returns (ok: bool)
      modifies this`failures
      ensures failures == old(failures) + if ok then 0 else 1
    {
      ok := *;
      if !ok {
        failures := failures + 1;
      }
    }

    method Unlink(p: Path) returns (ok: bool)
      modifies this`files, this`failures
      ensures files == if ok then old(files) - {p} else old(files)
      ensures failures == old(failures) + if ok then 0 else 1
    {
      ok := SystemCall();
      if ok {
        files := files - {p};
      }
    }

    method Rename(from: Path, to: Path) returns (ok: bool)
      requires from in files
      modifies this`files, this`failures
      ensures files == if ok then Renamed(old(files), from, to) else old(files)
      ensures failures == old(failures) + if ok then 0 else 1
    {
      ok := SystemCall();
      if ok {
        files := Renamed(files, from, to);
      }
    }

    /** A hard link under a name that must not exist yet. */
    method Link(from: Path, to: Path) returns (ok: bool, taken: bool)
      requires from in files
      modifies this`files, this`failures
      ensures ok ==> to !in old(files) && files == old(files)[to := old(files)[from]]
      ensures !ok ==> files == old(files)
      ensures taken ==> !ok && to in files
      ensures failures == old(failures) + if ok || taken then 0 else 1
    {
      if to in files {
        return false, true;
      }
      ok := SystemCall();
      taken := false;
      if ok {
        files := files[to := files[from]];
      }
    }

    // ----- uploads

    /** CreateTempFile: whichever free name mkstemp picks; if closing it fails the file is removed
        again, or stays behind. */
    method CreateTempFile(dir: Dir, template: string -> bool) returns (temp: Option<Path>, leak: Option<Path>)
      modifies this`files, this`failures
      ensures temp.Some? ==> FreshTemp(old(files), temp.value, dir, template)
                             && files == old(files)[temp.value := []] && failures == old(failures)
      ensures temp.None? ==> failures > old(failures)
      ensures temp.None? && leak.Some? ==> FreshTemp(old(files), leak.value, dir, template)
                                           && files == old(files)[leak.value := []]
      ensures temp.None? && leak.None? ==> files == old(files)
    {
      temp, leak := None, None;
      var made := SystemCall();
      var name: string := *;
      if !made || !template(name) || Path(dir, name) in files {
        failures := failures + 1;
        return;
      }
      files := files[Path(dir, name) := []];
      var closed := SystemCall();
      if closed {
        temp := Some(Path(dir, name));
        return;
      }
      var removed := Unlink(Path(dir, name));
      if !removed {
        leak := Some(Path(dir, name));
      }
    }

    /** One write call: it fails, or takes some of what is left. */
    method WriteSome(up: Upload, temp: Path, done: nat) returns (ok: bool, total: nat)
      requires Valid() && world.phase == Writing(up, temp) && done < |up.payload|
      requires temp in files && files[temp] == up.payload[..done]
      modifies this`files, this`world, this`trace, this`failures
      ensures Valid() && world.phase == Writing(up, temp)
      ensures if ok then done < total <= |up.payload| else total == done
      ensures files == old(files)[temp := up.payload[..total]]
      ensures failures == old(failures) + if ok then 0 else 1
      ensures world.before == old(world.before) && world.stored == old(world.stored)
    {
      total := done;
      ok := SystemCall();
      if ok {
        var count: nat := *;
        total := if 0 < count <= |up.payload| - done then done + count else |up.payload|;
        files := files[temp := up.payload[..total]];
        FollowUpload(Write(total));
      }
    }

    /** SetContent on the fresh temporary file: short writes go on, a failed one gives up. */
    method SetContent(up: Upload, temp: Path) returns (ok: bool)
      requires Valid() && world.phase == Writing(up, temp) && temp in files && files[temp] == []
      modifies this`files, this`world, this`trace, this`failures
      ensures Valid() && world.phase == if ok then Written(up, temp) else Abandoned(temp)
      ensures temp in files && files == old(files)[temp := files[temp]]
      ensures ok ==> files[temp] == up.payload && failures == old(failures)
      ensures !ok ==> failures > old(failures)
      ensures world.before == old(world.before) && world.stored == old(world.stored)
    {
      var total := 0;
      ok := SystemCall();
      while ok && total < |up.payload|
        invariant Valid() && world.phase == Writing(up, temp)
        invariant 0 <= total <= |up.payload| && temp in files
        invariant files == old(files)[temp := up.payload[..total]]
        invariant failures == old(failures) + if ok then 0 else 1
        invariant world.before == old(world.before) && world.stored == old(world.stored)
        decreases ok, |up.payload| - total
      {
        ok, total := WriteSome(up, temp, total);
      }
      if ok {
        assert up.payload[..total] == up.payload;
        ok := SystemCall();
      }
      FollowUpload(WriteEnds(ok));
    }

    /** Removes the temporary name of a linked file, or else its final one again. */
    method LoseTemp(up: Upload, temp: Path) returns (ok: bool)
      requires Valid() && world.phase == Linked(up, temp)
      modifies this`files, this`world, this`trace, this`failures
      ensures Valid() && world.phase == if ok then Placed(up) else Abandoned(temp)
      ensures world.before == old(world.before)
      ensures if ok then failures == old(failures) && files == old(files) - {temp}
              else failures > old(failures) && (files == old(files) || files == old(files) - {up.Final()})
    {
      ok := Unlink(temp);
      FollowUpload(UnlinkTemp(ok));
      if !ok {
        var undone := Unlink(up.Final());
        FollowUpload(UndoLink(undone));
      }
    }

    /** CommitNoReplace: the complete file appears under its name, if that is free, and only then
        loses the temporary one. After a failure its name is as it was, or a failure more was seen. */
    method CommitNoReplace(up: Upload, temp: Path) returns (ok: bool, taken: bool)
      requires Valid() && world.phase == Written(up, temp) && temp in files && files[temp] == up.payload
      modifies this`files, this`world, this`trace, this`failures
      ensures world.before == old(world.before)
      ensures Valid() && world.phase == if ok then Placed(up) else Abandoned(temp)
      ensures ok ==> up.Final() !in old(files) && files == old(files)[up.Final() := up.payload] - {temp}
      ensures if ok || taken then failures == old(failures) else failures > old(failures)
      ensures taken ==> !ok && up.Final() in old(files) && files == old(files)
      ensures forall p :: p in old(files) && p != temp ==> p in files && files[p] == old(files)[p]
      ensures forall p :: p in files ==> p in old(files) || p == up.Final()
    {
      ok, taken := Link(temp, up.Final());
      FollowUpload(StorageTransaction.Link(ok));
      if !ok {
        return;
      }
      ok := LoseTemp(up, temp);
    }

    /** The destructor of the guard that still holds the temporary path. */
    method DropTemp(temp: Path)
      requires Valid() && world.phase == Abandoned(temp)
      modifies this`files, this`world, this`trace, this`failures
      ensures world.before == old(world.before)
      ensures Valid() && world.phase == Idle && failures >= old(failures)
      ensures failures == old(failures) ==> files == old(files) - {temp}
    {
      var ok := Unlink(temp);
      FollowUpload(StorageTransaction.DropTemp(ok));
    }

    /** The manager's Insert of the new record: saved in a new snapshot, then visible. */
    method Insert(up: Upload) returns (ok: bool)
      requires Valid() && world.phase == Examined(up)
      modifies this`mem, this`durable, this`world, this`trace, this`failures
      ensures world.before == old(world.before)
      ensures Valid() && world.phase == if ok then Idle else Refused(up)
      ensures failures == old(failures) + if ok then 0 else 1
      ensures mem == if ok then old(mem)[up.name := up.dir] else old(mem)
    {
      ok := SystemCall();
      if !ok {
        FollowUpload(PersistFails);
        return;
      }
      durable := mem[up.name := up.dir];
      FollowUpload(Commit);
      mem := durable;
      FollowUpload(Swap);
    }

    /** Stat and metadata of a file that is in place; after a failure the file is withdrawn. */
    method Register(up: Upload) returns (ok: bool)
      requires Valid() && world.phase == Placed(up)
      modifies this
      ensures world.before == old(world.before)
      ensures Valid() && world.phase == Idle
      ensures mem == if ok then old(mem)[up.name := up.dir] else old(mem)
      ensures ok ==> files == old(files)
      ensures if ok then failures == old(failures) else failures > old(failures)
    {
      ok := SystemCall();
      FollowUpload(Examine(ok));
      if ok {
        ok := Insert(up);
      }
      if !ok {
        var gone := Unlink(up.Final());
        FollowUpload(Withdraw(gone));
      }
    }

    method MakeUploadTemp(up: Upload) returns (temp: Option<Path>)
      requires Valid() && world.phase == Admitted(up)
      modifies this`files, this`world, this`trace, this`failures
      ensures Valid() && world.before == old(world.before)
      ensures world.phase == if temp.Some? then Writing(up, temp.value) else Idle
      ensures if temp.Some? then FreshTemp(old(files), temp.value, up.dir, names.upload) && files == old(files)[temp.value := []] && failures == old(failures)
              else failures > old(failures)
    {
      var leak;
      temp, leak := CreateTempFile(up.dir, names.upload);
      FollowUpload(if temp.Some? then MakeTemp(temp.value) else MakeTempFails(leak));
    }

    /** The part of an upload after its temporary file was made. */
    method Fill(up: Upload, temp: Path) returns (reply: Reply)
      requires Valid() && world.phase == Writing(up, temp) && temp in files && files[temp] == []
      modifies this
      ensures Valid() && world.phase == Idle && world.before == old(world.before)
      ensures mem == if reply == Created then old(mem)[up.name := up.dir] else old(mem)
      ensures reply == Created ==> up.Final() !in old(files) && files == old(files)[up.Final() := up.payload] - {temp}
      ensures reply == Conflict ==> up.Final() in old(files)
      ensures reply in {Created, Conflict, ServerError} && (reply == ServerError ==> failures > old(failures))
      ensures reply == Conflict && failures == old(failures) ==> files == old(files) - {temp}
    {
      var written := SetContent(up, temp);
      if !written {
        DropTemp(temp);
        return ServerError;
      }
      Forgotten(old(files), temp, files[temp], up);
      var placed, taken := CommitNoReplace(up, temp);
      if !placed {
        DropTemp(temp);
        return if taken then Conflict else ServerError;
      }
      var registered := Register(up);
      reply := if registered then Created else ServerError;
    }

    /** The part of an upload after its admission. */
    method Store(up: Upload) returns (reply: Reply)
      requires Valid() && world.phase == Admitted(up)
      modifies this
      ensures Valid() && world.phase == Idle && world.before == old(world.before)
      ensures mem == if reply == Created then old(mem)[up.name := up.dir] else old(mem)
      ensures reply == Created ==> up.Final() !in old(files) && files == old(files)[up.Final() := up.payload]
      ensures reply == Conflict ==> up.Final() in old(files) || names.upload(up.name)
      ensures reply in {Created, Conflict, ServerError} && (reply == ServerError ==> failures > old(failures))
      ensures reply == Conflict && failures == old(failures) ==> files == old(files)
    {
      var temp := MakeUploadTemp(up);
      if temp.None? {
        return ServerError;
      }
      reply := Fill(up, temp.value);
    }

    /** Between requests the two tables agree. */
    lemma Settled()
      requires Valid() && world.phase == Idle
      ensures mem == durable
    {
      RunKeepsInv(start, trace, names);
    }

    /** After an upload began, the files from before are as they were. */
    lemma Untouched()
      requires Valid() && world.before.Some?
      ensures forall p :: p in world.before.value ==> p in files && files[p] == world.before.value[p]
    {
      RunKeepsInv(start, trace, names);
    }

    /** Handles an upload. 201 means that the record is durable and the file complete; anything else
        leaves both tables alone. Files that were there before are never touched, and without a
        failed call nothing but the new file is left. */
    method Upload(up: Upload) returns (reply: Reply)
      requires Valid() && world.phase == Idle
      modifies this
      ensures Valid() && world.phase == Idle
      ensures mem == durable == if reply == Created then old(mem)[up.name := up.dir] else old(mem)
      ensures reply == Created ==> names.allowed(up.name) && up.name !in old(mem) && up.Final() !in old(files)
                                   && up.Final() in files && files[up.Final()] == up.payload
      ensures reply in {Created, BadRequest, Conflict, ServerError}
      ensures reply == BadRequest <==> !names.allowed(up.name)
      ensures reply == Conflict ==> up.name in old(mem) || up.Final() in old(files) || names.upload(up.name)
      ensures reply == ServerError ==> failures > old(failures)
      ensures forall p :: p in old(files) ==> p in files && files[p] == old(files)[p]
      ensures failures == old(failures) ==>
                files == if reply == Created then old(files)[up.Final() := up.payload] else old(files)
    {
      Settled();
      if !names.allowed(up.name) {
        return BadRequest;
      }
      if up.name in mem {
        return Conflict;
      }
      var ready := SystemCall();
      if !ready {
        return ServerError;
      }
      Follow(StartUpload(up));
      reply := Store(up);
      Settled();
      Untouched();
    }

    // ----- deletes

    function StoredAt(name: string): Path
      reads this
      requires name in mem
    {
      Path(mem[name], name)
    }

    /** Begins a delete and looks whether the file is there. */
    method Inspect(name: string) returns (found: Option<bool>)
      requires Valid() && world.phase == Idle && name in mem
      modifies this`world, this`trace, this`failures
      ensures Valid() && failures == old(failures) + if found.Some? then 0 else 1
      ensures found.Some? ==> (found.value <==> StoredAt(name) in files)
      ensures world.phase == if found == None then Idle else if found.value then Found(name) else MovedAway(name, None)
    {
      Follow(StartDelete(name));
      var inspected := SystemCall();
      found := if inspected then Some(StoredAt(name) in files) else None;
      FollowDelete(Probe(found));
    }

    method MakeTrash(name: string) returns (trash: Option<Path>)
      requires Valid() && world.phase == Found(name) && name in mem
      modifies this`files, this`world, this`trace, this`failures
      ensures Valid() && world.phase == if trash.Some? then Prepared(name, trash.value) else Idle
      ensures if trash.Some? then FreshTemp(old(files), trash.value, mem[name], names.trash) &&
                                  files == old(files)[trash.value := []] && failures == old(failures)
              else failures > old(failures)
      ensures forall p :: p in old(files) ==> p in files && files[p] == old(files)[p]
    {
      var leak;
      trash, leak := CreateTempFile(mem[name], names.trash);
      FollowDelete(if trash.Some? then MakeTemp(trash.value) else MakeTempFails(leak));
    }

    method RemovePlaceholder(name: string, trash: Path) returns (ok: bool)
      requires Valid() && world.phase == Prepared(name, trash)
      modifies this`files, this`world, this`trace, this`failures
      ensures Valid() && world.phase == Cleared(name, trash)
      ensures files == if ok then old(files) - {trash} else old(files)
      ensures failures == old(failures) + if ok then 0 else 1
    {
      ok := Unlink(trash);
      FollowDelete(ClearTrash(ok));
    }

    /** Moves the stored file over the trash name, from which the placeholder was removed first,
        if that succeeded. */
    method MoveAway(name: string, trash: Path) returns (ok: bool)
      requires Valid() && world.phase == Prepared(name, trash) && name in mem && StoredAt(name) in files
      requires trash != StoredAt(name) && trash in files
      modifies this`files, this`world, this`trace, this`failures
      ensures Valid() && world.phase == if ok then MovedAway(name, Some(trash)) else Idle
      ensures if ok then files == Renamed(old(files), StoredAt(name), trash) && failures >= old(failures)
              else (files == old(files) || files == old(files) - {trash}) && failures > old(failures)
    {
      var cleared := RemovePlaceholder(name, trash);
      ok := Rename(StoredAt(name), trash);
      FollowDelete(Move(ok));
    }

    /** A delete's snapshot is renamed into place, and its table swapped in. */
    method Forget(name: string, trash: Option<Path>)
      requires Valid() && world.phase == MovedAway(name, trash)
      modifies this`mem, this`durable, this`world, this`trace
      ensures Valid() && mem == old(mem) - {name}
      ensures world.phase == if trash.Some? then Doomed(trash.value) else Idle
    {
      durable := mem - {name};
      FollowDelete(Commit);
      mem := durable;
      FollowDelete(Swap);
    }

    /** The manager's Delete of a record that exists. */
    method Erase(name: string, trash: Option<Path>) returns (ok: bool)
      requires Valid() && world.phase == MovedAway(name, trash)
      modifies this`mem, this`durable, this`world, this`trace, this`failures
      ensures Valid() && failures == old(failures) + if ok then 0 else 1
      ensures trash.None? ==> world.phase == Idle
      ensures trash.Some? ==> world.phase == if ok then Doomed(trash.value) else EraseFailed(name, trash.value)
      ensures mem == if ok then old(mem) - {name} else old(mem)
    {
      ok := SystemCall();
      if ok {
        Forget(name, trash);
      } else {
        FollowDelete(PersistFails);
      }
    }

    /** Puts the file back; if that fails the trash is kept as the only copy. */
    method PutBack(name: string, trash: Path) returns (ok: bool)
      requires Valid() && world.phase == EraseFailed(name, trash) && name in mem && trash in files
      modifies this`files, this`world, this`trace, this`failures
      ensures Valid() && world.phase == Idle && failures >= old(failures)
      ensures files == if ok then Renamed(old(files), trash, StoredAt(name)) else old(files)
    {
      ok := Rename(trash, StoredAt(name));
      FollowDelete(Restore(ok));
    }

    /** Removes the trash, which the guard's destructor tries once more. */
    method EmptyTrash(trash: Path)
      requires Valid() && world.phase == Doomed(trash)
      modifies this`files, this`world, this`trace, this`failures
      ensures Valid() && world.phase == Idle && failures >= old(failures)
      ensures files == old(files) - {trash} || (files == old(files) && failures > old(failures))
    {
      var ok := Unlink(trash);
      FollowDelete(Remove(ok));
      if !ok {
        ok := Unlink(trash);
        FollowDelete(Remove(ok));
      }
    }

    /** The bytes stand at the name's path or under a trash name beside it. */
    ghost predicate KeptFor(name: string, bytes: Bytes)
      reads this
    {
      name in mem && exists p :: p in files && files[p] == bytes && IsPlaceOf(p, name, mem[name], names)
    }

    /** The metadata half of a delete whose file is in the trash: empties it or puts the file back. */
    method EraseMoved(name: string, trash: Path) returns (reply: Reply)
      requires Valid() && world.phase == MovedAway(name, Some(trash)) && name in mem && trash in files
      modifies this
      ensures Valid() && world.phase == Idle && failures >= old(failures)
      ensures reply in {Deleted, ServerError} && (reply == ServerError ==> failures > old(failures))
      ensures mem == if reply == Deleted then old(mem) - {name} else old(mem)
      ensures reply == Deleted ==> files == old(files) - {trash} || (files == old(files) && failures > old(failures))
      ensures reply == ServerError ==> files == old(files) || files == Renamed(old(files), trash, old(StoredAt(name)))
    {
      var erased := Erase(name, Some(trash));
      if erased {
        EmptyTrash(trash);
        return Deleted;
      }
      var restored := PutBack(name, trash);
      reply := ServerError;
    }

    /** A delete whose file was found. */
    method DeleteFile(name: string) returns (reply: Reply)
      requires Valid() && world.phase == Found(name) && name in mem && StoredAt(name) in files
      modifies this
      ensures Valid() && world.phase == Idle && failures >= old(failures)
      ensures reply in {Deleted, ServerError} && (reply == ServerError ==> failures > old(failures))
      ensures mem == if reply == Deleted then old(mem) - {name} else old(mem)
      ensures forall p :: p in old(files) && p != old(StoredAt(name)) ==> p in files && files[p] == old(files)[p]
      ensures failures == old(failures) ==> files == old(files) - {old(StoredAt(name))}
      ensures reply == ServerError ==> KeptFor(name, old(files)[old(StoredAt(name))])
    {
      ghost var path := StoredAt(name);
      var made := MakeTrash(name);
      if made.None? {
        assert IsPlaceOf(path, name, mem[name], names);
        return ServerError;
      }
      var trash := made.value;
      var moved := MoveAway(name, trash);
      if !moved {
        assert IsPlaceOf(path, name, mem[name], names);
        return ServerError;
      }
      ThereAndBack(old(files), path, trash);
      assert IsPlaceOf(path, name, mem[name], names) && IsPlaceOf(trash, name, mem[name], names);
      reply := EraseMoved(name, trash);
    }

    /** Handles a delete. 200 means that the record is gone from both tables; anything else leaves
        both alone and the bytes in the directory. No other file is touched, and without a failed
        call exactly the file is gone. */
    method Delete(name: string) returns (reply: Reply)
      requires Valid() && world.phase == Idle
      modifies this
      ensures Valid() && world.phase == Idle
      ensures reply == NotFound <==> name !in old(mem)
      ensures reply in {Deleted, NotFound, ServerError} && (reply == ServerError ==> failures > old(failures))
      ensures mem == durable == if reply == Deleted then old(mem) - {name} else old(mem)
      ensures reply == NotFound ==> files == old(files)
      ensures name in old(mem) ==> forall p :: p in old(files) && p != old(StoredAt(name)) ==> p in files && files[p] == old(files)[p]
      ensures reply == Deleted && failures == old(failures) ==> files == old(files) - {old(StoredAt(name))}
      ensures reply == ServerError && old(StoredAt(name)) in old(files) ==> KeptFor(name, old(files)[old(StoredAt(name))])
    {
      Settled();
      if name !in mem {
        return NotFound;
      }
      var found := Inspect(name);
      if found.None? {
        reply := ServerError;
      } else if found.value {
        reply := DeleteFile(name);
      } else {
        var erased := Erase(name, None);
        reply := if erased then Deleted else ServerError;
      }
      Settled();
    }
  }

  /** After any sequence of requests, with whatever failures, nothing is lost, if names are safe. */
  lemma ServiceKeepsBytes(service: Service)
    requires service.Valid() && Safe(service.names)
    ensures KeepsBytes(service.world, service.names)
  {
    assert Reaches(Initial(service.start), service.world, service.names);
    NothingIsLost(service.start, service.world, service.names);
  }

  /** An accepted name is one plain file name: joined to a directory it stays in that directory. */
  lemma SafeNamesArePlain(name: string)
    requires IsSafeFileName(name)
    ensures StoragePaths.PlainName(name)
    ensures '\\' !in name && forall c :: c in name ==> c as int >= 0x20 && c as int != 0x7f
  {
  }

  /** The name check as it stands lets runs happen that lose bytes; one more condition on the name
      would exclude them all. */
  lemma NameCheckIsOneConditionShort()
    ensures !Safe(ServerNames(IsSafeFileName))
    ensures Safe(ServerNames(name => IsSafeFileName(name) && !FitsTemplate(name, ".delete-")))
  {
    var shaped := Filled(".delete-", '0');
    FilledFits(".delete-", '0');
    var names := ServerNames(IsSafeFileName);
    assert names.allowed(shaped) && names.allowed("a") && names.trash(shaped);
  }
}
