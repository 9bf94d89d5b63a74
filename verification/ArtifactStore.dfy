/** The class `ArtifactStore`, each call a run of the step machine in `Store`. */
module ArtifactStores {
  import opened Prelude
  import opened Store

  const PREFIX := "artifact://sha256/"
  const ALGORITHM := "sha256:"

  /** The fields of an `ArtifactRef` that retrieval looks at. */
  datatype ArtifactRef = ArtifactRef(artifactId: string, uri: string, sha256: string, size: nat)

  predicate HexDigest(d: string) {
    |d| == 64 && forall c :: c in d ==> '0' <= c <= '9' || 'a' <= c <= 'f'
  }

  /** Python's `removeprefix`. */
  function RemovePrefix(s: string, prefix: string): string {
    if prefix <= s then s[|prefix|..] else s
  }

  /** `blob_path`, returning the digest that names the path. */
  function BlobPath(ref: ArtifactRef): Result<Digest, StoreError> {
    if !(PREFIX <= ref.uri) then Err(Integrity)
    else
      var digest := RemovePrefix(ref.uri, PREFIX);
      if !HexDigest(digest) then Err(Integrity)
      else if ref.sha256 != ALGORITHM + digest then Err(Integrity)
      else Ok(digest)
  }

  /** Both identities of the reference spell this hex digest. */
  predicate Spells(ref: ArtifactRef, d: Digest) {
    HexDigest(d) && ref.uri == PREFIX + d && ref.sha256 == ALGORITHM + d
  }

  /** A reference resolves exactly when both of its identities spell one hex digest, which
      is then the path; the semantic `artifact_id` never matters. */
  lemma BlobPathSpec(ref: ArtifactRef, d: Digest)
    ensures BlobPath(ref) == Ok(d) <==> Spells(ref, d)
    ensures BlobPath(ref) == Ok(d) ==> RemovePrefix(ref.sha256, ALGORITHM) == d
    ensures BlobPath(ref).Err? <==> !exists e :: Spells(ref, e)
    ensures BlobPath(ref).Err? ==> BlobPath(ref).error == Integrity
  {
    if PREFIX <= ref.uri {
      assert ref.uri == PREFIX + RemovePrefix(ref.uri, PREFIX);
      if BlobPath(ref).Ok? { assert Spells(ref, RemovePrefix(ref.uri, PREFIX)); }
    }
    forall e | ref.uri == PREFIX + e ensures RemovePrefix(ref.uri, PREFIX) == e {
      assert PREFIX <= ref.uri;
    }
    if ref.sha256 == ALGORITHM + d { assert RemovePrefix(ALGORITHM + d, ALGORITHM) == d; }
  }

  function ContentRef(d: Digest, size: nat): ArtifactRef {
    ArtifactRef("artifact_" + d, PREFIX + d, ALGORITHM + d, size)
  }

  /** The returned reference, under any semantic role name that `put_named_bytes` gives it,
      resolves to the path its content was published at. */
  lemma ReturnedRefResolves(d: Digest, size: nat, role: string)
    requires HexDigest(d)
    ensures BlobPath(ContentRef(d, size).(artifactId := role)) == Ok(d)
  {
    BlobPathSpec(ContentRef(d, size).(artifactId := role), d);
  }

  /** `open_verified` of this reference in a directory with these files. */
  function OpenOf(hash: Hasher, objects: map<Digest, File>, ref: ArtifactRef): Result<Bytes, StoreError> {
    match BlobPath(ref)
    case Err(e) => Err(e)
    case Ok(d) =>
      if d !in objects then Err(Missing)
      else if Verifies(hash, objects[d].bytes, d, ref.size) then Ok(objects[d].bytes)
      else Err(Integrity)
  }

  lemma ExecSnoc(hash: Hasher, s: State, acts: seq<Action>, a: Action)
    ensures Exec(hash, s, acts + [a]) == Apply(hash, Exec(hash, s, acts), a)
  {
    ExecConcat(hash, s, acts, [a]);
    assert Exec(hash, Exec(hash, s, acts), [a]) == Apply(hash, Exec(hash, s, acts), a);
  }

  /** A reader that starts now and is not disturbed answers what `open_verified` returns. */
  lemma ReaderAnswers(hash: Hasher, s: State, q: Pid, ref: ArtifactRef, d: Digest)
    requires q !in s.procs && Spells(ref, d)
    ensures var s' := Exec(hash, s, [StartReader(q, Ref(d, ref.size)), Step(q, 0), Step(q, 0)]);
            q in s'.procs && s'.procs[q] == Reader(Ref(d, ref.size), Answered(OpenOf(hash, s.objects, ref)))
  {
    BlobPathSpec(ref, d);
    var first := StartReader(q, Ref(d, ref.size));
    assert [first] + [Step(q, 0)] + [Step(q, 0)] == [first, Step(q, 0), Step(q, 0)] && [] + [first] == [first];
    ExecSnoc(hash, s, [], first);
    ExecSnoc(hash, s, [first], Step(q, 0));
    ExecSnoc(hash, s, [first] + [Step(q, 0)], Step(q, 0));
  }

  /** What `put_bytes` returned opens, under any role name, as the stored bytes. */
  lemma ReturnedRefOpens(hash: Hasher, objects: map<Digest, File>, data: Bytes, role: string)
    requires HexDigest(hash(data)) && hash(data) in objects
    requires |objects[hash(data)].bytes| == |data| && hash(objects[hash(data)].bytes) == hash(data)
    ensures OpenOf(hash, objects, ContentRef(hash(data), |data|).(artifactId := role)) == Ok(objects[hash(data)].bytes)
  {
    ReturnedRefResolves(hash(data), |data|, role);
  }

  /** The system calls of `put_bytes` that may fail. */
  datatype Syscall = Flock | Chmod | MkTemp | Seal | Replace | Fsync | Unlink | Stat

  /** Nobody else around: the machine state of a directory used by one process. */
  function Alone(objects: map<Digest, File>, temps: map<TempId, File>): State {
    State(objects, temps, map[], map[], map[])
  }

  /** After these actions the machine has this directory, and process 0 is in this phase of
      a `put_bytes(data)` that holds its lock exactly when the phase says so. */
  ghost predicate Reached(hash: Hasher, s0: State, acts: seq<Action>,
                          objects: map<Digest, File>, temps: map<TempId, File>, data: Bytes, phase: Phase)
  {
    var s := Exec(hash, s0, acts);
    && s.objects == objects && s.temps == temps && s.procs == map[0 := Writer(data, phase)]
    && s.locks == (if Holding(phase) then map[hash(data) := 0] else map[])
  }

  ghost function Moved(hash: Hasher, s: State, a: Action, data: Bytes, phase: Phase): State {
    if a.Step? then WriterStep(hash, s, 0, data, phase, a.choice) else WriterFault(s, 0, data, phase)
  }

  lemma ApplyIsMoved(hash: Hasher, s: State, a: Action, data: Bytes, phase: Phase)
    requires s.procs == map[0 := Writer(data, phase)] && (a.Step? || a.Fault?) && a.pid == 0
    ensures Apply(hash, s, a) == Moved(hash, s, a, data, phase)
  {
  }

  lemma MoveReaches(hash: Hasher, s0: State, acts: seq<Action>, a: Action, s: State, next: State,
                    data: Bytes, phase: Phase, phase': Phase)
    requires Exec(hash, s0, acts) == s && Apply(hash, s, a) == next
    requires s.procs == map[0 := Writer(data, phase)] && next.procs == s.procs[0 := Writer(data, phase')]
    requires next.locks == (if Holding(phase') then map[hash(data) := 0] else map[])
    ensures Reached(hash, s0, acts + [a], next.objects, next.temps, data, phase')
  {
    ExecSnoc(hash, s0, acts, a);
    assert Exec(hash, s0, acts + [a]) == next && next.procs == map[0 := Writer(data, phase')];
  }

  /** One more system call of process 0. */
  lemma Take(hash: Hasher, s0: State, acts: seq<Action>, a: Action, data: Bytes, phase: Phase,
             objects: map<Digest, File>, temps: map<TempId, File>, phase': Phase)
    requires Reached(hash, s0, acts, objects, temps, data, phase) && (a.Step? || a.Fault?) && a.pid == 0
    requires var next := Moved(hash, Exec(hash, s0, acts), a, data, phase);
             && next.procs == Exec(hash, s0, acts).procs[0 := Writer(data, phase')]
             && next.locks == (if Holding(phase') then map[hash(data) := 0] else map[])
    ensures var next := Moved(hash, Exec(hash, s0, acts), a, data, phase);
            Reached(hash, s0, acts + [a], next.objects, next.temps, data, phase')
  {
    var s := Exec(hash, s0, acts);
    ApplyIsMoved(hash, s, a, data, phase);
    MoveReaches(hash, s0, acts, a, s, Moved(hash, s, a, data, phase), data, phase, phase');
  }

  class ArtifactStore {
    const hash: Hasher
    const readOnly: bool
    var objects: map<Digest, File>
    var temps: map<TempId, File>

    constructor (hash: Hasher, readOnly: bool, objects: map<Digest, File>, temps: map<TempId, File>)
      ensures this.hash == hash && this.readOnly == readOnly && this.objects == objects && this.temps == temps
    {
      this.hash, this.readOnly, this.objects, this.temps := hash, readOnly, objects, temps;
    }

    /** `_verify_path`. */
    method VerifyPath(d: Digest, size: nat) returns (r: Result<Bytes, StoreError>)
      ensures r == (if d !in objects then Err(OsError)
                    else if Verifies(hash, objects[d].bytes, d, size) then Ok(objects[d].bytes)
                    else Err(Integrity))
    {
      if d !in objects { return Err(OsError); }
      var data := objects[d].bytes;
      if |data| != size || hash(data) != d { return Err(Integrity); }
      return Ok(data);
    }

    method OpenVerified(ref: ArtifactRef) returns (r: Result<Bytes, StoreError>)
      ensures r.Ok? ==> BlobPath(ref).Ok? && BlobPath(ref).value in objects
                        && r.value == objects[BlobPath(ref).value].bytes
                        && |r.value| == ref.size && ref.sha256 == ALGORITHM + hash(r.value)
      ensures r == Err(Missing) <==> BlobPath(ref).Ok? && BlobPath(ref).value !in objects
      ensures r.Ok? || r == Err(Missing) || r == Err(Integrity)
      ensures forall d :: Spells(ref, d) ==>
                (r.Ok? <==> d in objects && |objects[d].bytes| == ref.size && hash(objects[d].bytes) == d)
      ensures (forall d :: !Spells(ref, d)) ==> r == Err(Integrity)
      ensures r == OpenOf(hash, objects, ref)
    {
      var path := BlobPath(ref);
      forall d ensures path == Ok(d) <==> Spells(ref, d) { BlobPathSpec(ref, d); }
      if path.Err? { return Err(path.error); }
      BlobPathSpec(ref, path.value);
      if path.value !in objects { return Err(Missing); }
      r := VerifyPath(RemovePrefix(ref.sha256, ALGORITHM), ref.size);
    }

    /** The branch for a target that exists: verify it and restore its mode. */
    method Reuse(data: Bytes, failing: set<Syscall>, ghost s0: State, ghost before: seq<Action>)
      returns (outcome: Outcome, ghost acts: seq<Action>)
      requires hash(data) in objects && Reached(hash, s0, before, objects, temps, data, VerifyExisting)
      modifies this`objects
      ensures Reached(hash, s0, acts, objects, temps, data, Unlocking(outcome))
      ensures outcome == (if !Verifies(hash, old(objects)[hash(data)].bytes, hash(data), |data|) then Failed(Integrity)
                          else if Chmod in failing then Failed(OsError) else Published)
      ensures objects == if outcome.Published? then old(objects)[hash(data) := old(objects)[hash(data)].(sealed := true)]
                         else old(objects)
    {
      var d := hash(data);
      var verified := VerifyPath(d, |data|);
      acts := before + [Step(0, 0)];
      Take(hash, s0, before, Step(0, 0), data, VerifyExisting, objects, temps,
           if verified.Ok? then FixMode else Unlocking(Failed(Integrity)));
      if verified.Err? { return Failed(verified.error), acts; }
      outcome := if Chmod in failing then Failed(OsError) else Published;
      ghost var a := if Chmod in failing then Fault(0) else Step(0, 0);
      Take(hash, s0, acts, a, data, FixMode, objects, temps, Unlocking(outcome));
      acts := acts + [a];
      if Chmod !in failing { objects := objects[d := objects[d].(sealed := true)]; }
    }

    /** Writes the temp file `chunk` bytes at a time until it is complete or the disk full. */
    method WriteTemp(data: Bytes, name: TempId, disk: nat, chunk: nat, ghost s0: State, ghost before: seq<Action>)
      returns (ok: bool, ghost acts: seq<Action>)
      requires chunk > 0 && name in temps && temps[name] == File([], false)
      requires Reached(hash, s0, before, objects, temps, data, Writing(name))
      modifies this`temps
      ensures name in temps && temps - {name} == old(temps) - {name}
      ensures ok <==> |data| <= disk
      ensures Reached(hash, s0, acts, objects, temps, data, if ok then Sealing(name) else Unlinking(name))
      ensures ok ==> temps[name].bytes == data
    {
      acts := before;
      var done, finished := 0, false;
      while !finished
        invariant done <= |data| && done <= disk && (finished ==> done == |data|)
        invariant name in temps && temps - {name} == old(temps) - {name} && temps[name] == File(data[..done], false)
        invariant Reached(hash, s0, acts, objects, temps, data, if finished then Sealing(name) else Writing(name))
        decreases |data| - done, if finished then 0 else 1
      {
        var upTo := if chunk > |data| - done then |data| else done + chunk;
        if upTo > disk {
          Take(hash, s0, acts, Fault(0), data, Writing(name), objects, temps, Unlinking(name));
          return false, acts + [Fault(0)];
        }
        assert data[..done] + data[done..upTo] == data[..upTo];
        finished := upTo == |data|;
        Take(hash, s0, acts, Step(0, chunk), data, Writing(name), objects, temps,
             if finished then Sealing(name) else Writing(name));
        acts := acts + [Step(0, chunk)];
        temps := temps[name := File(data[..upTo], false)];
        done := upTo;
      }
      ok := true;
    }

    /** `fchmod` and `fsync` of the complete temp file. */
    method SealTemp(data: Bytes, name: TempId, failing: set<Syscall>, ghost s0: State, ghost before: seq<Action>)
      returns (ok: bool, ghost acts: seq<Action>)
      requires name in temps && Reached(hash, s0, before, objects, temps, data, Sealing(name))
      modifies this`temps
      ensures ok == (Seal !in failing)
      ensures Reached(hash, s0, acts, objects, temps, data, if ok then Renaming(name) else Unlinking(name))
      ensures temps == if ok then old(temps)[name := old(temps)[name].(sealed := true)] else old(temps)
    {
      ok := Seal !in failing;
      ghost var a := if ok then Step(0, 0) else Fault(0);
      Take(hash, s0, before, a, data, Sealing(name), objects, temps, if ok then Renaming(name) else Unlinking(name));
      acts := before + [a];
      if ok { temps := temps[name := temps[name].(sealed := true)]; }
    }

    /** `NamedTemporaryFile`. */
    method MakeTemp(data: Bytes, name: TempId, failing: set<Syscall>, ghost s0: State, ghost before: seq<Action>)
      returns (ok: bool, ghost acts: seq<Action>)
      requires name !in temps && Reached(hash, s0, before, objects, temps, data, CreateTemp)
      modifies this`temps
      ensures ok == (MkTemp !in failing)
      ensures Reached(hash, s0, acts, objects, temps, data, if ok then Writing(name) else Unlocking(Failed(OsError)))
      ensures temps == if ok then old(temps)[name := File([], false)] else old(temps)
    {
      ok := MkTemp !in failing;
      ghost var a := if ok then Step(0, name) else Fault(0);
      Take(hash, s0, before, a, data, CreateTemp, objects, temps, if ok then Writing(name) else Unlocking(Failed(OsError)));
      acts := before + [a];
      if ok { temps := temps[name := File([], false)]; }
    }

    /** The branch for a new target: temp file, seal, rename, verify; on an error the temp
        file stays behind for the caller's cleanup. */
    method PublishNew(data: Bytes, name: TempId, failing: set<Syscall>, disk: nat, chunk: nat,
                      ghost s0: State, ghost before: seq<Action>)
      returns (outcome: Outcome, temporary: Option<TempId>, ghost acts: seq<Action>)
      requires chunk > 0 && name !in temps && hash(data) !in objects
      requires Reached(hash, s0, before, objects, temps, data, CreateTemp)
      modifies this
      ensures temporary == None || (temporary == Some(name) && outcome == Failed(OsError))
      ensures Reached(hash, s0, acts, objects, temps, data,
                      if temporary.Some? then Unlinking(name) else Unlocking(outcome))
      ensures outcome == Published || outcome == Failed(OsError)
      ensures outcome == Published <==> failing !! {MkTemp, Seal, Replace, Fsync} && |data| <= disk
      ensures temps - {name} == old(temps) && (temporary == None ==> temps == old(temps))
      ensures objects == old(objects) || objects == old(objects)[hash(data) := File(data, true)]
      ensures outcome.Published? ==> hash(data) in objects
    {
      outcome, temporary := Failed(OsError), None;
      var ok;
      ok, acts := MakeTemp(data, name, failing, s0, before);
      if !ok { return; }
      temporary := Some(name);
      assert temps - {name} == old(temps);
      ok, acts := WriteTemp(data, name, disk, chunk, s0, acts);
      if !ok { return; }
      ok, acts := SealTemp(data, name, failing, s0, acts);
      assert temps - {name} == old(temps);
      if !ok { return; }
      outcome, temporary, acts := RenameTemp(data, name, failing, s0, acts);
    }

    method RenameTemp(data: Bytes, name: TempId, failing: set<Syscall>, ghost s0: State, ghost before: seq<Action>)
      returns (outcome: Outcome, temporary: Option<TempId>, ghost acts: seq<Action>)
      requires name in temps && temps[name] == File(data, true) && hash(data) !in objects
      requires Reached(hash, s0, before, objects, temps, data, Renaming(name))
      modifies this
      ensures temporary == None || (temporary == Some(name) && outcome == Failed(OsError))
      ensures Reached(hash, s0, acts, objects, temps, data,
                      if temporary.Some? then Unlinking(name) else Unlocking(outcome))
      ensures outcome == if failing !! {Replace, Fsync} then Published else Failed(OsError)
      ensures temps == if temporary == None then old(temps) - {name} else old(temps)
      ensures objects == if Replace in failing then old(objects) else old(objects)[hash(data) := File(data, true)]
    {
      outcome, temporary, acts := Failed(OsError), Some(name), before;
      if Replace in failing {
        Take(hash, s0, acts, Fault(0), data, Renaming(name), objects, temps, Unlinking(name));
        acts := acts + [Fault(0)];
        return;
      }
      Take(hash, s0, acts, Step(0, 0), data, Renaming(name), objects, temps, VerifyPublished);
      acts, temporary := acts + [Step(0, 0)], None;
      objects, temps := objects[hash(data) := temps[name]], temps - {name};
      if Fsync in failing {
        Take(hash, s0, acts, Fault(0), data, VerifyPublished, objects, temps, Unlocking(outcome));
        acts := acts + [Fault(0)];
        return;
      }
      var verified := VerifyPath(hash(data), |data|);
      outcome := Published;
      Take(hash, s0, acts, Step(0, 0), data, VerifyPublished, objects, temps, Unlocking(outcome));
      acts := acts + [Step(0, 0)];
    }

    /** Takes the lock of the digest and looks for its file. */
    method LockAndTest(data: Bytes, failing: set<Syscall>) returns (locked: bool, found: bool, ghost acts: seq<Action>)
      ensures locked <==> Flock !in failing
      ensures found <==> hash(data) in objects
      ensures Reached(hash, Alone(objects, temps), acts, objects, temps, data,
                      if !locked then Finished(Failed(OsError)) else if found then VerifyExisting else CreateTemp)
    {
      ghost var s0 := Alone(objects, temps);
      acts := [StartWriter(0, data)];
      assert acts == [] + [StartWriter(0, data)];
      ExecSnoc(hash, s0, [], StartWriter(0, data));
      locked, found := Flock !in failing, hash(data) in objects;
      if !locked {
        Take(hash, s0, acts, Fault(0), data, AwaitLock, objects, temps, Finished(Failed(OsError)));
        acts := acts + [Fault(0)];
        return;
      }
      Take(hash, s0, acts, Step(0, 0), data, AwaitLock, objects, temps, TestTarget);
      acts := acts + [Step(0, 0)];
      Take(hash, s0, acts, Step(0, 0), data, TestTarget, objects, temps, if found then VerifyExisting else CreateTemp);
      acts := acts + [Step(0, 0)];
    }

    /** `put_bytes`: `failing` are the system calls the operating system refuses, `disk` the
        bytes it still has room for and `chunk` what one write accepts. The ghost result
        exhibits the run of the step machine that this call performs. */
    method PutBytes(data: Bytes, name: TempId, failing: set<Syscall>, disk: nat, chunk: nat)
      returns (r: Result<ArtifactRef, StoreError>, ghost acts: seq<Action>)
      requires chunk > 0 && name !in temps
      modifies this
      ensures readOnly ==> r == Err(ReadOnlyStore) && objects == old(objects) && temps == old(temps)
      ensures !readOnly ==> Reached(hash, Alone(old(objects), old(temps)), acts, objects, temps, data,
                                    Finished(if r.Ok? then Published else Failed(r.error)))
      ensures Unlink !in failing ==> temps == old(temps)
      ensures r.Ok? ==> r.value == ContentRef(hash(data), |data|) && Stored(hash, Alone(objects, temps), hash(data), |data|)
                        && objects[hash(data)].sealed
      ensures r.Ok? ==> r.value == ArtifactRef("artifact_" + hash(data), "artifact://sha256/" + hash(data),
                                               "sha256:" + hash(data), |data|)
      ensures r.Ok? && HexDigest(hash(data)) ==> OpenOf(hash, objects, r.value) == Ok(objects[hash(data)].bytes)
      ensures r.Ok? && HexDigest(hash(data)) && hash(data) !in old(objects) ==> OpenOf(hash, objects, r.value) == Ok(data)
      ensures forall d :: d != hash(data) ==> (d in objects <==> d in old(objects))
      ensures forall d :: d in old(objects) ==> d in objects && objects[d].bytes == old(objects)[d].bytes
      ensures hash(data) in objects && hash(data) !in old(objects) ==> objects[hash(data)] == File(data, true)
      ensures failing == {} && |data| <= disk && !readOnly
              && (hash(data) in old(objects) ==> Verifies(hash, old(objects)[hash(data)].bytes, hash(data), |data|))
              ==> r.Ok?
    {
      acts := [];
      if readOnly { return Err(ReadOnlyStore), acts; }
      ghost var s0 := Alone(objects, temps);
      var locked, found;
      locked, found, acts := LockAndTest(data, failing);
      if !locked { return Err(OsError), acts; }
      var outcome, temporary := Failed(OsError), None;
      if found {
        outcome, acts := Reuse(data, failing, s0, acts);
      } else {
        outcome, temporary, acts := PublishNew(data, name, failing, disk, chunk, s0, acts);
      }
      outcome, acts := Cleanup(data, outcome, temporary, failing, s0, acts);
      r := match outcome
        case Published => Ok(ContentRef(hash(data), |data|))
        case Failed(e) => Err(e);
      if r.Ok? && HexDigest(hash(data)) { ReturnedRefOpens(hash, objects, data, r.value.artifactId); }
    }

    /** The `finally` block and the closing `stat`. */
    method Cleanup(data: Bytes, before: Outcome, temporary: Option<TempId>, failing: set<Syscall>,
                   ghost s0: State, ghost acts0: seq<Action>)
      returns (outcome: Outcome, ghost acts: seq<Action>)
      requires temporary.Some? ==> before == Failed(OsError)
      requires Reached(hash, s0, acts0, objects, temps, data,
                       if temporary.Some? then Unlinking(temporary.value) else Unlocking(before))
      modifies this`temps
      ensures Reached(hash, s0, acts, objects, temps, data, Finished(outcome))
      ensures outcome == if Stat in failing && before.Published? then Failed(OsError) else before
      ensures temps == if temporary.Some? && Unlink !in failing then old(temps) - {temporary.value} else old(temps)
    {
      acts := UnlinkTemp(data, before, temporary, failing, s0, acts0);
      outcome := if Stat in failing && before.Published? then Failed(OsError) else before;
      if outcome != before {
        Take(hash, s0, acts, Fault(0), data, Unlocking(before), objects, temps, Unlocking(outcome));
        acts := acts + [Fault(0)];
      }
      acts := Unlock(data, outcome, s0, acts);
    }

    method UnlinkTemp(data: Bytes, outcome: Outcome, temporary: Option<TempId>, failing: set<Syscall>,
                      ghost s0: State, ghost before: seq<Action>)
      returns (ghost acts: seq<Action>)
      requires temporary.Some? ==> outcome == Failed(OsError)
      requires Reached(hash, s0, before, objects, temps, data,
                       if temporary.Some? then Unlinking(temporary.value) else Unlocking(outcome))
      modifies this`temps
      ensures Reached(hash, s0, acts, objects, temps, data, Unlocking(outcome))
      ensures temps == if temporary.Some? && Unlink !in failing then old(temps) - {temporary.value} else old(temps)
    {
      acts := before;
      if temporary.Some? {
        ghost var a := if Unlink in failing then Fault(0) else Step(0, 0);
        Take(hash, s0, acts, a, data, Unlinking(temporary.value), objects, temps, Unlocking(outcome));
        acts := acts + [a];
        if Unlink !in failing { temps := temps - {temporary.value}; }
      }
    }

    ghost method Unlock(data: Bytes, outcome: Outcome, s0: State, before: seq<Action>) returns (acts: seq<Action>)
      requires Reached(hash, s0, before, objects, temps, data, Unlocking(outcome))
      ensures Reached(hash, s0, acts, objects, temps, data, Finished(outcome))
    {
      Take(hash, s0, before, Step(0, 0), data, Unlocking(outcome), objects, temps, Finished(outcome));
      acts := before + [Step(0, 0)];
    }
  }
}
