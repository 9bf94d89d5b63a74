/** The artifact store (src/nova_rtl/artifacts/store.py) under concurrency and crashes. */
module Store {
  import opened Prelude

  type Bytes = seq<bv8>
  type Digest = string
  type Hasher = Bytes -> Digest
  type Pid = nat
  type TempId = nat

  /** A regular file: its content and whether its mode is 0444. */
  datatype File = File(bytes: Bytes, sealed: bool)

  datatype StoreError = ReadOnlyStore | Missing | Integrity | OsError

  /** The identity part of a published `ArtifactRef`. */
  datatype Ref = Ref(digest: Digest, size: nat)

  datatype Outcome = Published | Failed(error: StoreError)

  /** Where a `put_bytes` call stands; `temp` is its `temporary_path`. */
  datatype Phase =
    | AwaitLock
    | TestTarget
    | VerifyExisting
    | FixMode
    | CreateTemp
    | Writing(temp: TempId)
    | Sealing(temp: TempId)
    | Renaming(temp: TempId)
    | VerifyPublished
    | Unlinking(temp: TempId)
    | Unlocking(outcome: Outcome)
    | Finished(outcome: Outcome)

  datatype ReadPhase = Probing | Loading | Answered(answer: Result<Bytes, StoreError>)

  datatype Process =
    | Writer(data: Bytes, phase: Phase)
    | Reader(ref: Ref, reading: ReadPhase)

  /** `renames` counts, for the proofs only, how often a digest path was renamed onto. */
  datatype State = State(
    objects: map<Digest, File>,
    temps: map<TempId, File>,
    locks: map<Digest, Pid>,
    procs: map<Pid, Process>,
    renames: map<Digest, nat>)

  /** One move of the environment. `Step` lets a process execute its next system call;
      `choice` is the name a temp file gets or the number of bytes a write accepts. */
  datatype Action =
    | StartWriter(pid: Pid, data: Bytes)
    | StartReader(pid: Pid, ref: Ref)
    | Step(pid: Pid, choice: nat)
    | Fault(pid: Pid)
    | Crash(pid: Pid)

  /** The size and hash test of `_verify_path`. */
  predicate Verifies(hash: Hasher, bytes: Bytes, digest: Digest, size: nat) {
    |bytes| == size && hash(bytes) == digest
  }

  function Renames(s: State, d: Digest): nat { if d in s.renames then s.renames[d] else 0 }

  function At(s: State, p: Pid, data: Bytes, phase: Phase): State {
    s.(procs := s.procs[p := Writer(data, phase)])
  }

  /** The next system call of a `put_bytes`; a process whose lock is taken waits. */
  function WriterStep(hash: Hasher, s: State, p: Pid, data: Bytes, phase: Phase, choice: nat): State {
    var d := hash(data);
    match phase
    case AwaitLock => if d in s.locks then s else At(s.(locks := s.locks[d := p]), p, data, TestTarget)
    case TestTarget => At(s, p, data, if d in s.objects then VerifyExisting else CreateTemp)
    case VerifyExisting =>
      At(s, p, data, if d !in s.objects then Unlocking(Failed(OsError))
                     else if Verifies(hash, s.objects[d].bytes, d, |data|) then FixMode
                     else Unlocking(Failed(Integrity)))
    case FixMode =>
      if d !in s.objects then At(s, p, data, Unlocking(Failed(OsError)))
      else At(s.(objects := s.objects[d := s.objects[d].(sealed := true)]), p, data, Unlocking(Published))
    case CreateTemp =>
      if choice in s.temps then s
      else At(s.(temps := s.temps[choice := File([], false)]), p, data, Writing(choice))
    case Writing(t) =>
      if t !in s.temps || |s.temps[t].bytes| > |data| then At(s, p, data, Unlinking(t))
      else
        var done := |s.temps[t].bytes|;
        var upTo := if choice > |data| - done then |data| else done + choice;
        At(s.(temps := s.temps[t := File(s.temps[t].bytes + data[done..upTo], false)]),
           p, data, if upTo == |data| then Sealing(t) else Writing(t))
    case Sealing(t) =>
      if t !in s.temps then At(s, p, data, Unlinking(t))
      else At(s.(temps := s.temps[t := s.temps[t].(sealed := true)]), p, data, Renaming(t))
    case Renaming(t) =>
      if t !in s.temps then At(s, p, data, Unlinking(t))
      else At(s.(objects := s.objects[d := s.temps[t]], temps := s.temps - {t},
                 renames := s.renames[d := Renames(s, d) + 1]), p, data, VerifyPublished)
    case VerifyPublished =>
      At(s, p, data, Unlocking(if d !in s.objects then Failed(OsError)
                               else if Verifies(hash, s.objects[d].bytes, d, |data|) then Published
                               else Failed(Integrity)))
    case Unlinking(t) => At(s.(temps := s.temps - {t}), p, data, Unlocking(Failed(OsError)))
    case Unlocking(outcome) => At(s.(locks := s.locks - {d}), p, data, Finished(outcome))
    case Finished(_) => s
  }

  /** An operating-system error in the next call: the `finally` block takes over. */
  function WriterFault(s: State, p: Pid, data: Bytes, phase: Phase): State {
    match phase
    case AwaitLock => At(s, p, data, Finished(Failed(OsError)))
    case Writing(t) => At(s, p, data, Unlinking(t))
    case Sealing(t) => At(s, p, data, Unlinking(t))
    case Renaming(t) => At(s, p, data, Unlinking(t))
    case Finished(_) => s
    case _ => At(s, p, data, Unlocking(Failed(OsError)))
  }

  function ReaderStep(hash: Hasher, s: State, p: Pid, ref: Ref, reading: ReadPhase): State {
    var next :=
      match reading
      case Probing => if ref.digest in s.objects then Loading else Answered(Err(Missing))
      case Loading =>
        if ref.digest !in s.objects then Answered(Err(OsError))
        else if Verifies(hash, s.objects[ref.digest].bytes, ref.digest, ref.size)
        then Answered(Ok(s.objects[ref.digest].bytes))
        else Answered(Err(Integrity))
      case Answered(_) => reading;
    s.(procs := s.procs[p := Reader(ref, next)])
  }

  /** A disabled action leaves the state alone, so every action list is a run. */
  function Apply(hash: Hasher, s: State, a: Action): State {
    match a
    case StartWriter(p, data) => if p in s.procs then s else At(s, p, data, AwaitLock)
    case StartReader(p, ref) => if p in s.procs then s else s.(procs := s.procs[p := Reader(ref, Probing)])
    case Step(p, choice) =>
      if p !in s.procs then s
      else (match s.procs[p]
            case Writer(data, phase) => WriterStep(hash, s, p, data, phase, choice)
            case Reader(ref, reading) => ReaderStep(hash, s, p, ref, reading))
    case Fault(p) =>
      if p !in s.procs then s
      else (match s.procs[p]
            case Writer(data, phase) => WriterFault(s, p, data, phase)
            case Reader(ref, reading) =>
              if reading.Answered? then s else s.(procs := s.procs[p := Reader(ref, Answered(Err(OsError)))]))
    case Crash(p) =>
      s.(procs := s.procs - {p}, locks := map d | d in s.locks && s.locks[d] != p :: s.locks[d])
  }

  function Exec(hash: Hasher, s: State, acts: seq<Action>): State
    decreases acts
  {
    if acts == [] then s else Exec(hash, Apply(hash, s, acts[0]), acts[1..])
  }

  lemma {:induction false} ExecConcat(hash: Hasher, s: State, a: seq<Action>, b: seq<Action>)
    ensures Exec(hash, s, a + b) == Exec(hash, Exec(hash, s, a), b)
    decreases a
  {
    if a == [] {
      assert a + b == b;
    } else {
      assert (a + b)[1..] == a[1..] + b;
      ExecConcat(hash, Apply(hash, s, a[0]), a[1..], b);
    }
  }

  // ------------------------------------------------------------------------- invariant

  predicate Holding(phase: Phase) { !phase.AwaitLock? && !phase.Finished? }

  function Owned(proc: Process): Option<TempId> {
    if proc.Reader? then None
    else
      match proc.phase
      case Writing(t) => Some(t)
      case Sealing(t) => Some(t)
      case Renaming(t) => Some(t)
      case Unlinking(t) => Some(t)
      case _ => None
  }

  /** The digest is published with content of this size that hashes to it. */
  predicate Stored(hash: Hasher, s: State, d: Digest, size: nat) {
    d in s.objects && Verifies(hash, s.objects[d].bytes, d, size)
  }

  ghost predicate OutcomeOk(hash: Hasher, s: State, data: Bytes, outcome: Outcome) {
    var d := hash(data);
    match outcome
    case Published => Stored(hash, s, d, |data|)
    case Failed(e) => e == OsError
                      || (e == Integrity && d in s.objects && !Verifies(hash, s.objects[d].bytes, d, |data|))
  }

  ghost predicate PhaseOk(hash: Hasher, s: State, data: Bytes, phase: Phase) {
    var d := hash(data);
    match phase
    case VerifyExisting => d in s.objects
    case FixMode => Stored(hash, s, d, |data|)
    case CreateTemp => d !in s.objects
    case Writing(t) => d !in s.objects && t in s.temps && s.temps[t].bytes <= data
    case Sealing(t) => d !in s.objects && t in s.temps && s.temps[t].bytes == data
    case Renaming(t) => d !in s.objects && t in s.temps && s.temps[t] == File(data, true)
    case VerifyPublished => d in s.objects && s.objects[d].bytes == data
    case Unlinking(t) => t in s.temps
    case Unlocking(outcome) => OutcomeOk(hash, s, data, outcome)
    case Finished(outcome) => OutcomeOk(hash, s, data, outcome)
    case _ => true
  }

  ghost predicate ProcOk(hash: Hasher, s: State, p: Pid)
    requires p in s.procs
  {
    match s.procs[p]
    case Writer(data, phase) =>
      && (Holding(phase) ==> hash(data) in s.locks && s.locks[hash(data)] == p)
      && PhaseOk(hash, s, data, phase)
    case Reader(ref, reading) => reading.Loading? ==> ref.digest in s.objects
  }

  ghost predicate LockOk(hash: Hasher, s: State, d: Digest)
    requires d in s.locks
  {
    var p := s.locks[d];
    p in s.procs && s.procs[p].Writer? && hash(s.procs[p].data) == d && Holding(s.procs[p].phase)
  }

  ghost predicate TempsApart(s: State) {
    forall p, q :: p in s.procs && q in s.procs && p != q && Owned(s.procs[p]).Some? ==>
      Owned(s.procs[p]) != Owned(s.procs[q])
  }

  ghost predicate Inv(hash: Hasher, s: State) {
    && (forall p :: p in s.procs ==> ProcOk(hash, s, p))
    && (forall d :: d in s.locks ==> LockOk(hash, s, d))
    && TempsApart(s)
    && (forall d :: Renames(s, d) <= (if d in s.objects then 1 else 0))
  }

  /** No process alive and nothing counted yet; objects and leftover temps are arbitrary. */
  ghost predicate Init(s: State) {
    s.procs == map[] && s.locks == map[] && s.renames == map[]
  }

  /** Every published file has the content its path names. */
  ghost predicate Clean(hash: Hasher, s: State) {
    forall d :: d in s.objects ==> hash(s.objects[d].bytes) == d
  }

  /** What a move by `p` may do to the rest of the world. */
  ghost predicate Local(s: State, s': State, p: Pid) {
    && s'.procs - {p} == s.procs - {p}
    && (forall d :: d in s.locks && s.locks[d] != p ==> d in s'.locks && s'.locks[d] == s.locks[d])
    && (forall d :: d in s.objects ==> d in s'.objects && s'.objects[d].bytes == s.objects[d].bytes)
    && (forall d :: d in s'.objects && d !in s.objects ==> d in s.locks && s.locks[d] == p)
    && (forall q :: q in s.procs && q != p && Owned(s.procs[q]).Some? ==>
          var t := Owned(s.procs[q]).value;
          t in s.temps ==> t in s'.temps && s'.temps[t] == s.temps[t])
  }

  lemma LocalKeepsOthers(hash: Hasher, s: State, s': State, p: Pid, q: Pid)
    requires Local(s, s', p) && q != p && q in s.procs && ProcOk(hash, s, q)
    ensures q in s'.procs && s'.procs[q] == s.procs[q] && ProcOk(hash, s', q)
  {
    assert q in s'.procs - {p} && s'.procs[q] == s.procs[q] by {
      assert q in s.procs - {p};
      assert (s.procs - {p})[q] == s.procs[q];
      assert (s'.procs - {p})[q] == s'.procs[q];
    }
    match s.procs[q]
    case Reader(_, _) =>
    case Writer(data, phase) =>
      var d := hash(data);
      if Owned(s.procs[q]).Some? { assert Owned(s.procs[q]).value in s.temps; }
  }

  /** A local move after which its mover is in order keeps the whole invariant. */
  lemma LocalKeepsInv(hash: Hasher, s: State, s': State, p: Pid)
    requires Inv(hash, s) && Local(s, s', p)
    requires p in s'.procs ==> ProcOk(hash, s', p)
    requires forall d :: d in s'.locks && (d !in s.locks || s'.locks[d] != s.locks[d] || s.locks[d] == p) ==> LockOk(hash, s', d)
    requires p in s'.procs && Owned(s'.procs[p]).Some? ==>
               (p in s.procs && Owned(s.procs[p]) == Owned(s'.procs[p])) || Owned(s'.procs[p]).value !in s.temps
    requires forall d :: Renames(s', d) <= (if d in s'.objects then 1 else 0)
    ensures Inv(hash, s')
  {
    forall q | q in s'.procs ensures ProcOk(hash, s', q) {
      if q != p { Others(s, s', p, q); LocalKeepsOthers(hash, s, s', p, q); }
    }
    forall d | d in s'.locks ensures LockOk(hash, s', d) {
      if d in s.locks && s'.locks[d] == s.locks[d] && s.locks[d] != p {
        assert LockOk(hash, s, d);
        LocalKeepsOthers(hash, s, s', p, s.locks[d]);
      }
    }
    forall q, r | q in s'.procs && r in s'.procs && q != r && Owned(s'.procs[q]).Some?
      ensures Owned(s'.procs[q]) != Owned(s'.procs[r])
    {
      if q != p { Others(s, s', p, q); LocalKeepsOthers(hash, s, s', p, q); OwnedExists(hash, s, q); }
      if r != p {
        Others(s, s', p, r);
        LocalKeepsOthers(hash, s, s', p, r);
        if Owned(s.procs[r]).Some? { OwnedExists(hash, s, r); }
      }
    }
  }

  lemma Others(s: State, s': State, p: Pid, q: Pid)
    requires s'.procs - {p} == s.procs - {p} && q != p
    ensures q in s.procs <==> q in s'.procs
  {
    assert q in s.procs - {p} <==> q in s'.procs - {p};
  }

  lemma OwnedExists(hash: Hasher, s: State, q: Pid)
    requires q in s.procs && ProcOk(hash, s, q) && Owned(s.procs[q]).Some?
    ensures Owned(s.procs[q]).value in s.temps
  {
  }

  /** Moving on without touching the file system. */
  lemma PhaseMove(hash: Hasher, s: State, p: Pid, phase: Phase)
    requires Inv(hash, s) && p in s.procs && s.procs[p].Writer?
    requires PhaseOk(hash, s, s.procs[p].data, phase)
    requires Holding(phase) == Holding(s.procs[p].phase)
    requires var o := Owned(Writer(s.procs[p].data, phase)); o.None? || o == Owned(s.procs[p])
    ensures var s' := At(s, p, s.procs[p].data, phase); Inv(hash, s') && Local(s, s', p)
  {
    var s' := At(s, p, s.procs[p].data, phase);
    assert ProcOk(hash, s, p);
    assert s'.procs - {p} == s.procs - {p};
    assert PhaseOk(hash, s', s.procs[p].data, phase);
    LocalKeepsInv(hash, s, s', p);
  }

  lemma AcquireKeepsInv(hash: Hasher, s: State, p: Pid)
    requires Inv(hash, s) && p in s.procs && s.procs[p].Writer? && s.procs[p].phase.AwaitLock?
    ensures var s' := WriterStep(hash, s, p, s.procs[p].data, AwaitLock, 0); Inv(hash, s') && Local(s, s', p)
  {
    if hash(s.procs[p].data) !in s.locks { LockTaken(hash, s, p, hash(s.procs[p].data)); }
  }

  lemma LockTaken(hash: Hasher, s: State, p: Pid, d: Digest)
    requires Inv(hash, s) && p in s.procs && s.procs[p].Writer? && s.procs[p].phase.AwaitLock?
    requires d == hash(s.procs[p].data) && d !in s.locks
    ensures var s' := At(s.(locks := s.locks[d := p]), p, s.procs[p].data, TestTarget); Inv(hash, s') && Local(s, s', p)
  {
    var s' := At(s.(locks := s.locks[d := p]), p, s.procs[p].data, TestTarget);
    assert s'.procs - {p} == s.procs - {p};
    forall e | e in s.locks ensures s.locks[e] != p { assert LockOk(hash, s, e); }
    LocalKeepsInv(hash, s, s', p);
  }

  lemma ReleaseKeepsInv(hash: Hasher, s: State, p: Pid)
    requires Inv(hash, s) && p in s.procs && s.procs[p].Writer? && s.procs[p].phase.Unlocking?
    ensures var s' := WriterStep(hash, s, p, s.procs[p].data, s.procs[p].phase, 0); Inv(hash, s') && Local(s, s', p)
  {
    var s' := WriterStep(hash, s, p, s.procs[p].data, s.procs[p].phase, 0);
    assert ProcOk(hash, s, p);
    assert s'.procs - {p} == s.procs - {p};
    forall d | d in s'.locks ensures s.locks[d] != p { assert LockOk(hash, s, d); }
    LocalKeepsInv(hash, s, s', p);
  }

  /** Moves that keep the locks: a chmod, a temp file, a rename or an unlink. */
  lemma FileMove(hash: Hasher, s: State, s': State, p: Pid)
    requires Inv(hash, s) && p in s.procs && p in s'.procs && s.procs[p].Writer? && s'.procs[p].Writer?
    requires s'.procs[p].data == s.procs[p].data && s'.locks == s.locks && Local(s, s', p)
    requires Holding(s.procs[p].phase) && Holding(s'.procs[p].phase)
    requires PhaseOk(hash, s', s.procs[p].data, s'.procs[p].phase)
    requires Owned(s'.procs[p]).Some? ==> Owned(s.procs[p]) == Owned(s'.procs[p]) || Owned(s'.procs[p]).value !in s.temps
    requires forall d :: Renames(s', d) <= (if d in s'.objects then 1 else 0)
    ensures Inv(hash, s')
  {
    assert ProcOk(hash, s, p);
    forall d | d in s'.locks && s.locks[d] == p ensures LockOk(hash, s', d) { assert LockOk(hash, s, d); }
    LocalKeepsInv(hash, s, s', p);
  }

  lemma FixModeKeepsInv(hash: Hasher, s: State, p: Pid)
    requires Inv(hash, s) && p in s.procs && s.procs[p].Writer? && s.procs[p].phase.FixMode?
    ensures var s' := WriterStep(hash, s, p, s.procs[p].data, FixMode, 0); Inv(hash, s') && Local(s, s', p)
  {
    var s' := WriterStep(hash, s, p, s.procs[p].data, FixMode, 0);
    assert ProcOk(hash, s, p);
    assert s'.procs - {p} == s.procs - {p};
    FileMove(hash, s, s', p);
  }

  lemma CreateTempKeepsInv(hash: Hasher, s: State, p: Pid, choice: nat)
    requires Inv(hash, s) && p in s.procs && s.procs[p].Writer? && s.procs[p].phase.CreateTemp?
    ensures var s' := WriterStep(hash, s, p, s.procs[p].data, CreateTemp, choice); Inv(hash, s') && Local(s, s', p)
  {
    var s' := WriterStep(hash, s, p, s.procs[p].data, CreateTemp, choice);
    assert ProcOk(hash, s, p);
    assert s'.procs - {p} == s.procs - {p};
    if choice !in s.temps {
      forall q | q in s.procs && Owned(s.procs[q]).Some? ensures Owned(s.procs[q]).value != choice {
        OwnedExists(hash, s, q);
      }
      FileMove(hash, s, s', p);
    }
  }

  /** A temp file is its owner's alone. */
  lemma TempMoveIsLocal(hash: Hasher, s: State, s': State, p: Pid, t: TempId)
    requires Inv(hash, s) && p in s.procs && Owned(s.procs[p]) == Some(t)
    requires s'.procs - {p} == s.procs - {p} && s'.temps - {t} == s.temps - {t}
    requires s'.locks == s.locks && s'.objects == s.objects
    ensures Local(s, s', p)
  {
    forall q | q in s.procs && q != p && Owned(s.procs[q]).Some?
      ensures var u := Owned(s.procs[q]).value; u in s.temps ==> u in s'.temps && s'.temps[u] == s.temps[u]
    {
      var u := Owned(s.procs[q]).value;
      assert u != t;
      if u in s.temps {
        assert u in s.temps - {t};
        assert (s.temps - {t})[u] == s.temps[u] && (s'.temps - {t})[u] == s'.temps[u];
      }
    }
  }

  lemma WritingKeepsInv(hash: Hasher, s: State, p: Pid, choice: nat)
    requires Inv(hash, s) && p in s.procs && s.procs[p].Writer? && s.procs[p].phase.Writing?
    ensures var s' := WriterStep(hash, s, p, s.procs[p].data, s.procs[p].phase, choice); Inv(hash, s') && Local(s, s', p)
  {
    var data, t := s.procs[p].data, s.procs[p].phase.temp;
    var s' := WriterStep(hash, s, p, data, s.procs[p].phase, choice);
    assert ProcOk(hash, s, p);
    assert s'.procs - {p} == s.procs - {p} && s'.temps - {t} == s.temps - {t};
    var done := |s.temps[t].bytes|;
    var upTo := if choice > |data| - done then |data| else done + choice;
    assert s.temps[t].bytes == data[..done];
    assert data[..done] + data[done..upTo] == data[..upTo];
    TempMoveIsLocal(hash, s, s', p, t);
    FileMove(hash, s, s', p);
  }

  lemma SealingKeepsInv(hash: Hasher, s: State, p: Pid)
    requires Inv(hash, s) && p in s.procs && s.procs[p].Writer? && s.procs[p].phase.Sealing?
    ensures var s' := WriterStep(hash, s, p, s.procs[p].data, s.procs[p].phase, 0); Inv(hash, s') && Local(s, s', p)
  {
    var t := s.procs[p].phase.temp;
    var s' := WriterStep(hash, s, p, s.procs[p].data, s.procs[p].phase, 0);
    assert ProcOk(hash, s, p);
    assert s'.procs - {p} == s.procs - {p} && s'.temps - {t} == s.temps - {t};
    TempMoveIsLocal(hash, s, s', p, t);
    FileMove(hash, s, s', p);
  }

  lemma UnlinkingKeepsInv(hash: Hasher, s: State, p: Pid)
    requires Inv(hash, s) && p in s.procs && s.procs[p].Writer? && s.procs[p].phase.Unlinking?
    ensures var s' := WriterStep(hash, s, p, s.procs[p].data, s.procs[p].phase, 0); Inv(hash, s') && Local(s, s', p)
  {
    var t := s.procs[p].phase.temp;
    var s' := WriterStep(hash, s, p, s.procs[p].data, s.procs[p].phase, 0);
    assert ProcOk(hash, s, p);
    assert s'.procs - {p} == s.procs - {p} && s'.temps - {t} == s.temps - {t};
    TempMoveIsLocal(hash, s, s', p, t);
    FileMove(hash, s, s', p);
  }

  lemma RenamePublishes(hash: Hasher, s: State, p: Pid)
    requires Inv(hash, s) && p in s.procs && s.procs[p].Writer? && s.procs[p].phase.Renaming?
    ensures var s' := WriterStep(hash, s, p, s.procs[p].data, s.procs[p].phase, 0); var d := hash(s.procs[p].data);
            d !in s.objects && s'.objects == s.objects[d := File(s.procs[p].data, true)] && Renames(s, d) == 0 && Renames(s', d) == 1
  {
    assert ProcOk(hash, s, p);
    assert Renames(s, hash(s.procs[p].data)) <= 0;
  }

  /** The rename publishes exactly the bytes of the call, on a path that held no file. */
  lemma RenamingKeepsInv(hash: Hasher, s: State, p: Pid)
    requires Inv(hash, s) && p in s.procs && s.procs[p].Writer? && s.procs[p].phase.Renaming?
    ensures var s' := WriterStep(hash, s, p, s.procs[p].data, s.procs[p].phase, 0); Inv(hash, s') && Local(s, s', p)
    ensures var s' := WriterStep(hash, s, p, s.procs[p].data, s.procs[p].phase, 0); var d := hash(s.procs[p].data);
            d !in s.objects && s'.objects == s.objects[d := File(s.procs[p].data, true)] && Renames(s', d) == 1
  {
    RenamePublishes(hash, s, p);
    var t := s.procs[p].phase.temp;
    var d := hash(s.procs[p].data);
    var s' := WriterStep(hash, s, p, s.procs[p].data, s.procs[p].phase, 0);
    assert ProcOk(hash, s, p);
    assert s'.procs - {p} == s.procs - {p} && s'.temps - {t} == s.temps - {t};
    TempMoveIsLocal(hash, s, s'.(objects := s.objects), p, t);
    forall e ensures Renames(s', e) <= (if e in s'.objects then 1 else 0) {
      assert Renames(s, e) <= (if e in s.objects then 1 else 0);
    }
    FileMove(hash, s, s', p);
  }

  lemma WriterStepKeepsInv(hash: Hasher, s: State, p: Pid, choice: nat)
    requires Inv(hash, s) && p in s.procs && s.procs[p].Writer?
    ensures var s' := WriterStep(hash, s, p, s.procs[p].data, s.procs[p].phase, choice);
            Inv(hash, s') && Local(s, s', p)
  {
    var data, phase := s.procs[p].data, s.procs[p].phase;
    var d := hash(data);
    assert ProcOk(hash, s, p);
    match phase
    case AwaitLock => AcquireKeepsInv(hash, s, p);
    case TestTarget => PhaseMove(hash, s, p, if d in s.objects then VerifyExisting else CreateTemp);
    case VerifyExisting =>
      PhaseMove(hash, s, p, if Verifies(hash, s.objects[d].bytes, d, |data|) then FixMode else Unlocking(Failed(Integrity)));
    case FixMode => FixModeKeepsInv(hash, s, p);
    case CreateTemp => CreateTempKeepsInv(hash, s, p, choice);
    case Writing(_) => WritingKeepsInv(hash, s, p, choice);
    case Sealing(_) => SealingKeepsInv(hash, s, p);
    case Renaming(_) => RenamingKeepsInv(hash, s, p);
    case VerifyPublished =>
      PhaseMove(hash, s, p, if Verifies(hash, s.objects[d].bytes, d, |data|) then Unlocking(Published) else Unlocking(Failed(Integrity)));
    case Unlinking(_) => UnlinkingKeepsInv(hash, s, p);
    case Unlocking(_) => ReleaseKeepsInv(hash, s, p);
    case Finished(_) => PhaseMove(hash, s, p, phase);
      assert At(s, p, data, phase) == s by { assert s.procs[p := Writer(data, phase)] == s.procs; }
  }

  lemma WriterFaultKeepsInv(hash: Hasher, s: State, p: Pid)
    requires Inv(hash, s) && p in s.procs && s.procs[p].Writer?
    ensures var s' := WriterFault(s, p, s.procs[p].data, s.procs[p].phase); Inv(hash, s') && Local(s, s', p)
  {
    var data, phase := s.procs[p].data, s.procs[p].phase;
    assert ProcOk(hash, s, p);
    match phase
    case AwaitLock => PhaseMove(hash, s, p, Finished(Failed(OsError)));
    case Writing(t) => PhaseMove(hash, s, p, Unlinking(t));
    case Sealing(t) => PhaseMove(hash, s, p, Unlinking(t));
    case Renaming(t) => PhaseMove(hash, s, p, Unlinking(t));
    case Finished(_) => PhaseMove(hash, s, p, phase);
      assert At(s, p, data, phase) == s by { assert s.procs[p := Writer(data, phase)] == s.procs; }
    case _ => PhaseMove(hash, s, p, Unlocking(Failed(OsError)));
  }

  /** Starting a call, or any move of a reader, replaces one process that owns nothing. */
  lemma ProcMove(hash: Hasher, s: State, p: Pid, proc: Process)
    requires Inv(hash, s) && (p in s.procs ==> s.procs[p].Reader?)
    requires proc.Reader? || proc.phase.AwaitLock?
    requires proc.Reader? && proc.reading.Loading? ==> proc.ref.digest in s.objects
    ensures var s' := s.(procs := s.procs[p := proc]); Inv(hash, s') && Local(s, s', p)
  {
    var s' := s.(procs := s.procs[p := proc]);
    assert s'.procs - {p} == s.procs - {p};
    forall d | d in s.locks ensures s.locks[d] != p { assert LockOk(hash, s, d); }
    forall d ensures Renames(s', d) == Renames(s, d) {}
    LocalKeepsInv(hash, s, s', p);
  }

  lemma CrashKeepsInv(hash: Hasher, s: State, p: Pid)
    requires Inv(hash, s)
    ensures var s' := Apply(hash, s, Crash(p)); Inv(hash, s') && Local(s, s', p)
  {
    var s' := Apply(hash, s, Crash(p));
    assert s'.procs - {p} == s.procs - {p};
    LocalKeepsInv(hash, s, s', p);
  }

  /** Every action keeps the invariant and touches only what its process may touch. */
  lemma ApplyKeepsInv(hash: Hasher, s: State, a: Action)
    requires Inv(hash, s)
    ensures Inv(hash, Apply(hash, s, a)) && (Apply(hash, s, a) == s || Local(s, Apply(hash, s, a), a.pid))
  {
    match a
    case StartWriter(p, data) => if p !in s.procs { ProcMove(hash, s, p, Writer(data, AwaitLock)); }
    case StartReader(p, ref) => if p !in s.procs { ProcMove(hash, s, p, Reader(ref, Probing)); }
    case Step(p, choice) =>
      if p in s.procs {
        if s.procs[p].Writer? { WriterStepKeepsInv(hash, s, p, choice); } else {
          ProcMove(hash, s, p, Apply(hash, s, a).procs[p]);
        }
      }
    case Fault(p) =>
      if p in s.procs {
        if s.procs[p].Writer? { WriterFaultKeepsInv(hash, s, p); } else {
          ProcMove(hash, s, p, Reader(s.procs[p].ref, Answered(Err(OsError))));
        }
      }
    case Crash(p) => CrashKeepsInv(hash, s, p);
  }

  /** Content that is published stays published, byte for byte, and only the lock holder
      can publish. */
  ghost predicate Extends(s: State, s': State) {
    forall d :: d in s.objects ==> d in s'.objects && s'.objects[d].bytes == s.objects[d].bytes
  }

  lemma {:induction false} RunKeepsInv(hash: Hasher, s: State, acts: seq<Action>)
    requires Inv(hash, s)
    ensures Inv(hash, Exec(hash, s, acts)) && Extends(s, Exec(hash, s, acts))
    decreases acts
  {
    if acts != [] {
      ApplyKeepsInv(hash, s, acts[0]);
      RunKeepsInv(hash, Apply(hash, s, acts[0]), acts[1..]);
    }
  }

  /** A path that holds a file is not renamed onto. */
  lemma RenameNeedsFreePath(hash: Hasher, s: State, a: Action, d: Digest)
    requires Inv(hash, s) && d in s.objects
    ensures Renames(Apply(hash, s, a), d) == Renames(s, d)
  {
    if a.Step? && a.pid in s.procs && s.procs[a.pid].Writer? && s.procs[a.pid].phase.Renaming? { assert ProcOk(hash, s, a.pid); }
  }

  lemma {:induction false} HeldPathIsNotRenamed(hash: Hasher, s: State, acts: seq<Action>, d: Digest)
    requires Inv(hash, s) && d in s.objects
    ensures Renames(Exec(hash, s, acts), d) == Renames(s, d)
    decreases acts
  {
    if acts != [] {
      ApplyKeepsInv(hash, s, acts[0]);
      RenameNeedsFreePath(hash, s, acts[0], d);
      HeldPathIsNotRenamed(hash, Apply(hash, s, acts[0]), acts[1..], d);
    }
  }

  // --------------------------------------------------------------------- main theorems

  /** Whatever was in the directory to begin with and whatever happens since, published
      content never changes and no path is ever renamed onto twice, nor renamed onto if
      it already held a file. */
  lemma PublishedNeverChanges(hash: Hasher, init: State, before: seq<Action>, after: seq<Action>)
    requires Init(init)
    ensures Extends(Exec(hash, init, before), Exec(hash, init, before + after))
    ensures forall d :: Renames(Exec(hash, init, before), d) <= 1
    ensures forall d :: d in init.objects ==> Renames(Exec(hash, init, before), d) == 0
  {
    RunKeepsInv(hash, init, before);
    RunKeepsInv(hash, Exec(hash, init, before), after);
    ExecConcat(hash, init, before, after);
    forall d | d in init.objects ensures Renames(Exec(hash, init, before), d) == 0 { HeldPathIsNotRenamed(hash, init, before, d); }
  }
}
