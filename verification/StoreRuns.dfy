/** What whole runs of the artifact store guarantee, and that they end. */
module StoreRuns {
  import opened Prelude
  import opened Store

  // ------------------------------------------------------------------- clean contents

  lemma WriterStepKeepsClean(hash: Hasher, s: State, p: Pid, choice: nat)
    requires Inv(hash, s) && Clean(hash, s) && p in s.procs && s.procs[p].Writer?
    ensures Clean(hash, WriterStep(hash, s, p, s.procs[p].data, s.procs[p].phase, choice))
  {
    assert ProcOk(hash, s, p);
  }

  lemma ApplyKeepsClean(hash: Hasher, s: State, a: Action)
    requires Inv(hash, s) && Clean(hash, s)
    ensures Clean(hash, Apply(hash, s, a))
  {
    if a.Step? && a.pid in s.procs && s.procs[a.pid].Writer? { WriterStepKeepsClean(hash, s, a.pid, a.choice); }
  }

  /** From a clean store, every reachable state is clean: a digest path is absent or holds
      complete bytes of that digest, however writers, faults and crashes interleave. */
  lemma {:induction false} CleanStaysClean(hash: Hasher, s: State, acts: seq<Action>)
    requires Inv(hash, s) && Clean(hash, s)
    ensures Clean(hash, Exec(hash, s, acts))
    decreases acts
  {
    if acts != [] {
      ApplyKeepsInv(hash, s, acts[0]);
      ApplyKeepsClean(hash, s, acts[0]);
      CleanStaysClean(hash, Apply(hash, s, acts[0]), acts[1..]);
    }
  }

  /** On a clean store `put_bytes` reports an integrity failure only when the path already
      holds different bytes with the very same digest. */
  lemma IntegrityMeansCollision(hash: Hasher, init: State, acts: seq<Action>, p: Pid)
    requires Init(init) && Clean(hash, init)
    requires var s := Exec(hash, init, acts);
             p in s.procs && s.procs[p].Writer? && s.procs[p].phase == Finished(Failed(Integrity))
    ensures var s := Exec(hash, init, acts);
            var data := s.procs[p].data;
            && hash(data) in s.objects
            && s.objects[hash(data)].bytes != data
            && hash(s.objects[hash(data)].bytes) == hash(data)
  {
    RunKeepsInv(hash, init, acts);
    CleanStaysClean(hash, init, acts);
    assert ProcOk(hash, Exec(hash, init, acts), p);
  }

  // -------------------------------------------------------------------- durable reads

  /** A reader of a stored digest has not been told anything wrong. */
  predicate ServedOne(s: State, q: Pid, ref: Ref)
    requires q in s.procs && ref.digest in s.objects
  {
    s.procs[q].Reader? && s.procs[q].ref == ref && s.procs[q].reading.Answered? ==>
      var answer := s.procs[q].reading.answer;
      answer == Ok(s.objects[ref.digest].bytes) || answer == Err(OsError)
  }

  predicate Served(s: State, ref: Ref, older: set<Pid>)
    requires ref.digest in s.objects
  {
    forall q :: q in s.procs && q !in older ==> ServedOne(s, q, ref)
  }

  lemma OtherServed(hash: Hasher, s: State, s': State, p: Pid, q: Pid, ref: Ref)
    requires Inv(hash, s) && Local(s, s', p) && q != p && q in s'.procs && ref.digest in s.objects
    requires q in s.procs ==> ServedOne(s, q, ref)
    ensures ServedOne(s', q, ref)
  {
    Others(s, s', p, q);
    assert ProcOk(hash, s, q);
    LocalKeepsOthers(hash, s, s', p, q);
  }

  lemma MoverServed(hash: Hasher, s: State, a: Action, ref: Ref)
    requires Stored(hash, s, ref.digest, ref.size) && (a.pid in s.procs ==> ServedOne(s, a.pid, ref))
    requires a.pid in Apply(hash, s, a).procs && ref.digest in Apply(hash, s, a).objects
    requires Apply(hash, s, a).objects[ref.digest].bytes == s.objects[ref.digest].bytes
    ensures ServedOne(Apply(hash, s, a), a.pid, ref)
  {
  }

  lemma ApplyServes(hash: Hasher, s: State, a: Action, ref: Ref, older: set<Pid>)
    requires Inv(hash, s) && Stored(hash, s, ref.digest, ref.size) && Served(s, ref, older)
    ensures var s' := Apply(hash, s, a);
            Inv(hash, s') && Stored(hash, s', ref.digest, ref.size) && Served(s', ref, older)
  {
    var s' := Apply(hash, s, a);
    ApplyKeepsInv(hash, s, a);
    if s' != s {
      forall q | q in s'.procs && q !in older ensures ServedOne(s', q, ref) {
        if q == a.pid { MoverServed(hash, s, a, ref); } else {
          Others(s, s', a.pid, q);
          OtherServed(hash, s, s', a.pid, q, ref);
        }
      }
    }
  }

  /** A reader of a stored digest that the operating system has not failed. */
  predicate Helped(s: State, q: Pid, ref: Ref)
    requires ref.digest in s.objects
  {
    q in s.procs && s.procs[q].Reader? && s.procs[q].ref == ref && s.procs[q].reading.Answered? ==>
      s.procs[q].reading.answer == Ok(s.objects[ref.digest].bytes)
  }

  lemma OtherHelped(hash: Hasher, s: State, s': State, p: Pid, q: Pid, ref: Ref)
    requires Inv(hash, s) && Local(s, s', p) && q != p && ref.digest in s.objects && Helped(s, q, ref)
    ensures Helped(s', q, ref)
  {
    Others(s, s', p, q);
    if q in s.procs {
      assert ProcOk(hash, s, q);
      LocalKeepsOthers(hash, s, s', p, q);
    }
  }

  lemma ApplyHelps(hash: Hasher, s: State, a: Action, q: Pid, ref: Ref)
    requires Inv(hash, s) && Stored(hash, s, ref.digest, ref.size) && Helped(s, q, ref) && a != Fault(q)
    ensures var s' := Apply(hash, s, a);
            Inv(hash, s') && Stored(hash, s', ref.digest, ref.size) && Helped(s', q, ref)
  {
    var s' := Apply(hash, s, a);
    ApplyKeepsInv(hash, s, a);
    if s' != s {
      if a.pid == q { MoverHelped(hash, s, a, ref); } else { OtherHelped(hash, s, s', a.pid, q, ref); }
    }
  }

  lemma MoverHelped(hash: Hasher, s: State, a: Action, ref: Ref)
    requires Stored(hash, s, ref.digest, ref.size) && Helped(s, a.pid, ref) && !a.Fault?
    requires ref.digest in Apply(hash, s, a).objects
    requires Apply(hash, s, a).objects[ref.digest].bytes == s.objects[ref.digest].bytes
    ensures Helped(Apply(hash, s, a), a.pid, ref)
  {
  }

  lemma {:induction false} RunHelps(hash: Hasher, s: State, acts: seq<Action>, q: Pid, ref: Ref)
    requires Inv(hash, s) && Stored(hash, s, ref.digest, ref.size) && Helped(s, q, ref) && Fault(q) !in acts
    ensures Stored(hash, Exec(hash, s, acts), ref.digest, ref.size) && Helped(Exec(hash, s, acts), q, ref)
    decreases acts
  {
    if acts != [] {
      assert acts == [acts[0]] + acts[1..];
      ApplyHelps(hash, s, acts[0], q, ref);
      RunHelps(hash, Apply(hash, s, acts[0]), acts[1..], q, ref);
    }
  }

  lemma {:induction false} RunServes(hash: Hasher, s: State, acts: seq<Action>, ref: Ref, older: set<Pid>)
    requires Inv(hash, s) && Stored(hash, s, ref.digest, ref.size) && Served(s, ref, older)
    ensures var s' := Exec(hash, s, acts);
            && Stored(hash, s', ref.digest, ref.size)
            && s'.objects[ref.digest].bytes == s.objects[ref.digest].bytes
            && Served(s', ref, older)
    decreases acts
  {
    RunKeepsInv(hash, s, acts);
    if acts != [] {
      ApplyServes(hash, s, acts[0], ref, older);
      RunServes(hash, Apply(hash, s, acts[0]), acts[1..], ref, older);
    }
  }

  /** Once some `put_bytes(data)` has returned, every `open_verified` of the returned
      reference that starts later gives back `data` - unless the operating system fails a
      system call of that very reader or two byte strings of that length share the digest.
      Nothing that happens meanwhile, crashes included, makes the artifact missing or
      corrupt. */
  lemma DurableRead(hash: Hasher, init: State, before: seq<Action>, after: seq<Action>, w: Pid, q: Pid, data: Bytes)
    requires Init(init)
    requires var s := Exec(hash, init, before);
             q !in s.procs && w in s.procs && s.procs[w] == Writer(data, Finished(Published))
    requires var s' := Exec(hash, init, before + after);
             q in s'.procs && s'.procs[q].Reader? && s'.procs[q].reading.Answered?
             && s'.procs[q].ref == Ref(hash(data), |data|)
    ensures var answer := Exec(hash, init, before + after).procs[q].reading.answer;
            || (answer == Err(OsError) && Fault(q) in after)
            || (answer.Ok? && hash(answer.value) == hash(data) && |answer.value| == |data|
                && ((forall c :: hash(c) == hash(data) && |c| == |data| ==> c == data) ==> answer.value == data))
  {
    var s := Exec(hash, init, before);
    var ref := Ref(hash(data), |data|);
    RunKeepsInv(hash, init, before);
    assert ProcOk(hash, s, w);
    RunServes(hash, s, after, ref, s.procs.Keys);
    if Fault(q) !in after { RunHelps(hash, s, after, q, ref); }
    ExecConcat(hash, init, before, after);
    assert ServedOne(Exec(hash, s, after), q, ref);
  }

  // ----------------------------------------------------------------------- completion

  /** How many own steps a lock holder is away from returning. */
  function Rank(phase: Phase): nat {
    match phase
    case AwaitLock => 9
    case TestTarget => 8
    case CreateTemp => 7
    case Writing(_) => 6
    case Sealing(_) => 5
    case Renaming(_) => 4
    case VerifyPublished => 3
    case VerifyExisting => 3
    case FixMode => 2
    case Unlinking(_) => 2
    case Unlocking(_) => 1
    case Finished(_) => 0
  }

  /** The call is not already on its way to an error. */
  predicate Unfailed(phase: Phase) {
    !phase.Unlinking? && (phase.Unlocking? ==> phase.outcome.Published?)
    && (phase.Finished? ==> phase.outcome.Published?)
  }

  /** Nothing wrong sits at the path this writer is about to publish. */
  predicate PathFine(hash: Hasher, s: State, data: Bytes) {
    hash(data) in s.objects ==> Verifies(hash, s.objects[hash(data)].bytes, hash(data), |data|)
  }

  /** A writer that is not waiting for a lock somebody else holds. */
  predicate Alive(hash: Hasher, s: State, p: Pid) {
    && p in s.procs && s.procs[p].Writer?
    && (s.procs[p].phase.AwaitLock? ==> hash(s.procs[p].data) !in s.locks)
  }

  /** There is always an unused temp file name. */
  lemma {:induction false} UnusedName(names: set<TempId>) returns (t: TempId)
    ensures t !in names && forall n :: n in names ==> n < t
  {
    t := 0;
    if names != {} {
      var n :| n in names;
      var m := UnusedName(names - {n});
      t := if n < m then m else n + 1;
      forall k | k in names ensures k < t { if k != n { assert k in names - {n}; } }
    }
  }

  function Useful(data: Bytes, phase: Phase, name: TempId): nat {
    if phase.Writing? then |data| else name
  }

  /** The phase an undisturbed writer reaches next when its choices are useful. */
  function NextPhase(hash: Hasher, s: State, data: Bytes, phase: Phase, name: TempId): Phase {
    var d := hash(data);
    match phase
    case AwaitLock => TestTarget
    case TestTarget => if d in s.objects then VerifyExisting else CreateTemp
    case VerifyExisting =>
      if d in s.objects && Verifies(hash, s.objects[d].bytes, d, |data|) then FixMode else Unlocking(Failed(Integrity))
    case FixMode => Unlocking(Published)
    case CreateTemp => Writing(name)
    case Writing(t) => Sealing(t)
    case Sealing(t) => Renaming(t)
    case Renaming(t) => VerifyPublished
    case VerifyPublished =>
      Unlocking(if d in s.objects && Verifies(hash, s.objects[d].bytes, d, |data|) then Published else Failed(Integrity))
    case Unlinking(t) => Unlocking(Failed(OsError))
    case Unlocking(outcome) => Finished(outcome)
    case Finished(_) => phase
  }

  lemma DriveStep(hash: Hasher, s: State, p: Pid, name: TempId)
    requires Alive(hash, s, p) && name !in s.temps && !s.procs[p].phase.Finished?
    requires PhaseOk(hash, s, s.procs[p].data, s.procs[p].phase)
    ensures var data, phase := s.procs[p].data, s.procs[p].phase;
            WriterStep(hash, s, p, data, phase, Useful(data, phase, name)).procs
              == s.procs[p := Writer(data, NextPhase(hash, s, data, phase, name))]
  {
    var data, phase := s.procs[p].data, s.procs[p].phase;
    if phase.Writing? {
      var written := s.temps[phase.temp].bytes;
      assert |written| <= |data|;
    }
  }

  lemma NextPhaseSinks(hash: Hasher, s: State, data: Bytes, phase: Phase, name: TempId)
    requires !phase.Finished?
    ensures var next := NextPhase(hash, s, data, phase, name);
            Rank(next) < Rank(phase) && !next.AwaitLock?
            && (PhaseOk(hash, s, data, phase) && PathFine(hash, s, data) && Unfailed(phase) ==> Unfailed(next))
  {
  }

  lemma StepKeepsPathFine(hash: Hasher, s: State, p: Pid, data: Bytes, phase: Phase, choice: nat)
    requires PhaseOk(hash, s, data, phase) && PathFine(hash, s, data)
    ensures PathFine(hash, WriterStep(hash, s, p, data, phase, choice), data)
  {
  }

  /** From any reachable state - after any crash - a `put_bytes` that is not waiting for
      somebody else's lock returns, and frees its lock, within nine of its own system
      calls; and it publishes unless it had already failed or foreign bytes occupy its
      path. So no crash leaves a digest that can never be stored. */
  lemma {:induction false} DriveToReturn(hash: Hasher, s: State, p: Pid) returns (acts: seq<Action>)
    requires Inv(hash, s) && Alive(hash, s, p)
    ensures |acts| <= Rank(s.procs[p].phase) && forall i :: 0 <= i < |acts| ==> acts[i].Step? && acts[i].pid == p
    ensures var s' := Exec(hash, s, acts);
            && p in s'.procs && s'.procs[p].Writer? && s'.procs[p].data == s.procs[p].data
            && s'.procs[p].phase.Finished?
            && !(hash(s.procs[p].data) in s'.locks && s'.locks[hash(s.procs[p].data)] == p)
            && (PathFine(hash, s, s.procs[p].data) && Unfailed(s.procs[p].phase) ==>
                  s'.procs[p].phase == Finished(Published))
    decreases if p in s.procs && s.procs[p].Writer? then Rank(s.procs[p].phase) else 0
  {
    var data, phase := s.procs[p].data, s.procs[p].phase;
    if phase.Finished? {
      acts := [];
      if hash(data) in s.locks { assert LockOk(hash, s, hash(data)); }
    } else {
      var name := UnusedName(s.temps.Keys);
      var a := Step(p, Useful(data, phase, name));
      var s1 := Apply(hash, s, a);
      assert ProcOk(hash, s, p);
      DriveStep(hash, s, p, name);
      NextPhaseSinks(hash, s, data, phase, name);
      if PathFine(hash, s, data) { StepKeepsPathFine(hash, s, p, data, phase, a.choice); }
      ApplyKeepsInv(hash, s, a);
      var rest := DriveToReturn(hash, s1, p);
      acts := [a] + rest;
      assert acts[1..] == rest;
    }
  }
}
