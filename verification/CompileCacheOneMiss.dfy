/** One miss per key: what the lock gives when the entry of that key can be read and stays as it was written. */
module CompileCacheOneMiss {
  import opened Options
  import opened CompileCache
  import opened CompileCacheExclusion
  import CompileCacheLiveness

  /** Every read of an entry succeeds, and the lock is younger than the limit when the call comes to judge it. */
  predicate CalmInput(pc: Pc, clock: nat, input: Input) {
    && (Verifying(pc) ==> input == Ok)
    && (pc.JudgeLock? ==> clock - pc.mtime <= STALE)
  }

  /** Nothing is amiss with this key: its entry is not damaged, and its calls can read it and judge no lock stale. For
      other keys anything goes. */
  predicate CalmEvent(s: State, e: Event, key: Key) {
    match e
    case Tick(_) => true
    case Corrupt(k, _) => k != key
    case Crash(_) => true
    case Step(p, input) => p in s.procs && s.procs[p].key == key ==> CalmInput(s.procs[p].pc, s.clock, input)
  }

  predicate CalmRun(s: State, events: seq<Event>, key: Key)
    decreases |events|
  {
    events == [] || (CalmEvent(s, events[0], key) && CalmRun(Apply(s, events[0]), events[1..], key))
  }

  // ---- what calm steps keep ----

  predicate Intact(key: Key, entry: Option<Dir>) { entry.Some? ==> Usable(key, entry) }

  predicate ProcCalm(pid: Pid, proc: Proc, entry: Option<Dir>, lock: Option<Lock>) {
    var pc := proc.pc;
    && !pc.StealLock? && !pc.Crashed?
    && (Critical(pc) ==> lock.Some? && lock.value.owner == pid)
    && (pc.StatBinary? || pc.ReadBinary? ==> entry.Some? && entry.value.record == Some(pc.record))
    && (pc.ClearEntry? || Building(pc) ==> entry.None?)
    && (Answering(pc, Hit) || Answering(pc, Miss) ==> entry.Some?)
    && (Built(pc) || Answering(pc, Miss) ==> proc.compiled)
    && (proc.compiled ==> Built(pc) || Answering(pc, Miss) || Failing(pc))
    && (pc.Publish? ==> pc.outcome != Failed)
    && (pc.Chmod? || pc.WriteRecord? || pc.RenameStage? ==> StageOk(proc, pc.bytes))
    && (pc.WriteRecord? || pc.RenameStage? ==> proc.stage.value.binary.value.executable)
    && (pc.RenameStage? ==> proc.stage.value.record == Some(Record(proc.key, Sha256(pc.bytes), |pc.bytes|)))
  }

  predicate ViewCalm(v: View) { ProcCalm(v.pid, v.proc, v.entry, v.lock) && Intact(v.proc.key, v.entry) }

  /** What a calm step may do to the directories it shares with others. */
  predicate Courteous(v: View, v': View) {
    && v'.pid == v.pid && v'.proc.key == v.proc.key
    && (v'.lock == v.lock || (v.lock.None? && v'.lock.Some?) || (v.lock.Some? && v.lock.value.owner == v.pid))
    && (|| v'.entry == v.entry
        || (v.entry.None? && v'.entry.Some? && v.lock.Some? && v.lock.value.owner == v.pid && v.proc.compiled))
    && (Failing(v.proc.pc) ==> Failing(v'.proc.pc))
    && (v.proc.compiled ==> v'.proc.compiled)
    && (v'.proc.compiled && !v.proc.compiled ==> v.entry.None? && v.lock.Some? && v.lock.value.owner == v.pid)
  }

  ghost predicate StaysCalm(v: View, v': View) { ViewCalm(v') && Courteous(v, v') }

  lemma VerifyCalm(v: View, input: Input)
    requires ViewCalm(v) && CalmInput(v.proc.pc, v.clock, input) && Verifying(v.proc.pc)
    ensures StaysCalm(v, StepVerify(v, input))
  {
  }

  lemma LockCalm(v: View, input: Input)
    requires ViewCalm(v) && CalmInput(v.proc.pc, v.clock, input) && Locking(v.proc.pc)
    ensures StaysCalm(v, StepLock(v, input))
  {
  }

  lemma PublishCalm(v: View, input: Input)
    requires ViewCalm(v) && v.proc.pc.Publish?
    ensures StaysCalm(v, StepPublish(v, input))
  {
  }

  lemma CleanCalm(v: View, input: Input)
    requires ViewCalm(v) && Cleaning(v.proc.pc)
    ensures StaysCalm(v, StepClean(v, input))
  {
  }

  lemma BuildCalm(v: View, input: Input)
    requires ViewCalm(v)
    requires !Verifying(v.proc.pc) && !Locking(v.proc.pc) && !v.proc.pc.Publish? && !Cleaning(v.proc.pc)
    ensures StaysCalm(v, StepBuild(v, input))
  {
  }

  lemma StepCalm(v: View, input: Input)
    requires ViewCalm(v) && CalmInput(v.proc.pc, v.clock, input)
    ensures StaysCalm(v, StepCall(v, input))
  {
    hide ViewCalm, StaysCalm, StepVerify, StepLock, StepPublish, StepClean, StepBuild;
    if Verifying(v.proc.pc) { VerifyCalm(v, input); }
    else if Locking(v.proc.pc) { LockCalm(v, input); }
    else if v.proc.pc.Publish? { PublishCalm(v, input); }
    else if Cleaning(v.proc.pc) { CleanCalm(v, input); }
    else { BuildCalm(v, input); }
  }

  // ---- the whole system ----

  predicate CallCalm(s: State, p: Pid)
    requires p in s.procs
  {
    ProcCalm(p, s.procs[p], At(s.entries, s.procs[p].key), At(s.locks, s.procs[p].key))
  }

  ghost predicate Calm(s: State, key: Key) {
    && (forall p :: p in s.procs && s.procs[p].key == key ==> CallCalm(s, p))
    && Intact(key, At(s.entries, key))
  }

  /** No call for this key is failing or has failed. */
  ghost predicate Untroubled(s: State, key: Key) {
    forall p :: p in s.procs && s.procs[p].key == key ==> !Failing(s.procs[p].pc)
  }

  ghost predicate CompiledBy(s: State, key: Key, p: Pid) {
    p in s.procs && s.procs[p].key == key && s.procs[p].compiled
  }

  /** While no call for the key fails, at most one compiles, and one did if there is an entry. */
  ghost predicate OneBuilder(s: State, key: Key) {
    Untroubled(s, key) ==>
      && (forall p, q :: CompiledBy(s, key, p) && CompiledBy(s, key, q) ==> p == q)
      && (key in s.entries ==> exists p :: CompiledBy(s, key, p))
  }

  /** A courteous step of one call leaves every other call calm. */
  lemma OthersCalm(q: Pid, proc: Proc, v: View, v': View)
    requires ViewCalm(v) && StaysCalm(v, v') && q != v.pid && proc.key == v.proc.key
    requires ProcCalm(q, proc, v.entry, v.lock)
    ensures ProcCalm(q, proc, v'.entry, v'.lock)
  {
  }

  lemma WriteCalm(s: State, v': View, key: Key)
    requires Calm(s, key) && v'.pid in s.procs && v'.proc.key == s.procs[v'.pid].key == key
    requires StaysCalm(Look(s, v'.pid), v')
    ensures Calm(Write(s, v'), key)
  {
    hide ProcCalm, Intact, With, At;
    var v, s' := Look(s, v'.pid), Write(s, v');
    LookCalm(s, v'.pid);
    WithAt(s.entries, key, v'.entry, key);
    WithAt(s.locks, key, v'.lock, key);
    forall q | q in s'.procs && s'.procs[q].key == key ensures CallCalm(s', q) {
      if q != v'.pid {
        assert CallCalm(s, q);
        OthersCalm(q, s.procs[q], v, v');
      }
    }
  }

  lemma LookCalm(s: State, p: Pid)
    requires p in s.procs && Calm(s, s.procs[p].key)
    ensures ViewCalm(Look(s, p))
  {
    hide ProcCalm;
    assert CallCalm(s, p);
  }

  /** Nothing about a key has changed, but perhaps the time. */
  predicate SameFor(s: State, t: State, key: Key) {
    && At(t.entries, key) == At(s.entries, key) && At(t.locks, key) == At(s.locks, key)
    && (forall p :: p in s.procs && s.procs[p].key == key ==> p in t.procs && t.procs[p] == s.procs[p])
    && (forall p :: p in t.procs && t.procs[p].key == key ==> p in s.procs && t.procs[p] == s.procs[p])
  }

  lemma SameCalm(s: State, t: State, key: Key)
    requires Calm(s, key) && OneBuilder(s, key) && SameFor(s, t, key)
    ensures Calm(t, key) && OneBuilder(t, key)
  {
    hide ProcCalm, Intact, At, Failing;
    forall p | p in t.procs && t.procs[p].key == key ensures CallCalm(t, p) { assert CallCalm(s, p); }
    if Untroubled(t, key) {
      forall p | p in s.procs && s.procs[p].key == key ensures !Failing(s.procs[p].pc) { assert t.procs[p].key == key; }
      assert Untroubled(s, key);
      AtIn(s.entries, key);
      AtIn(t.entries, key);
      assert forall p :: CompiledBy(t, key, p) <==> CompiledBy(s, key, p);
    }
  }

  /** A new compile finds no other compile of the same key behind it. */
  lemma BuilderAlone(q: Pid, proc: Proc, entry: Option<Dir>, lock: Option<Lock>, p: Pid)
    requires ProcCalm(q, proc, entry, lock) && proc.compiled && !Failing(proc.pc)
    requires entry.None? && lock.Some? && lock.value.owner == p
    ensures q == p
  {
  }

  lemma WriteOneBuilder(s: State, v': View, key: Key)
    requires Calm(s, key) && OneBuilder(s, key) && v'.pid in s.procs && v'.proc.key == s.procs[v'.pid].key == key
    requires StaysCalm(Look(s, v'.pid), v')
    ensures OneBuilder(Write(s, v'), key)
  {
    hide ProcCalm, Intact, ViewCalm, With, At, Failing;
    var v, s', p := Look(s, v'.pid), Write(s, v'), v'.pid;
    if Untroubled(s', key) {
      forall q | q in s.procs && s.procs[q].key == key ensures !Failing(s.procs[q].pc) {
        assert s'.procs[q].key == key;
      }
      assert Untroubled(s, key);
      WithAt(s.entries, v'.proc.key, v'.entry, key);
      AtIn(s.entries, key);
      AtIn(s'.entries, key);
      assert forall q :: CompiledBy(s, key, q) ==> CompiledBy(s', key, q);
      forall q, r | CompiledBy(s', key, q) && CompiledBy(s', key, r) ensures q == r {
        if v'.proc.compiled && !v.proc.compiled {
          NewBuilder(s, v', q, key);
          NewBuilder(s, v', r, key);
        } else {
          assert CompiledBy(s, key, q) && CompiledBy(s, key, r);
        }
      }
      if key in s'.entries && key !in s.entries {
        assert CompiledBy(s', key, p);
      }
    }
  }

  lemma NewBuilder(s: State, v': View, q: Pid, key: Key)
    requires Calm(s, key) && Untroubled(s, key) && v'.pid in s.procs && v'.proc.key == s.procs[v'.pid].key == key
    requires StaysCalm(Look(s, v'.pid), v') && v'.proc.compiled && !Look(s, v'.pid).proc.compiled
    requires CompiledBy(Write(s, v'), key, q)
    ensures q == v'.pid
  {
    hide ProcCalm, Intact, ViewCalm, With, At, Failing;
    if q != v'.pid {
      assert CallCalm(s, q);
      BuilderAlone(q, s.procs[q], At(s.entries, key), At(s.locks, key), v'.pid);
    }
  }

  /** A crash of a call for the key, after which that call never succeeds. */
  ghost predicate SomeCrashed(s: State, key: Key) {
    exists p :: p in s.procs && s.procs[p].key == key && s.procs[p].pc.Crashed?
  }

  lemma StepMine(s: State, p: Pid, input: Input)
    requires p in s.procs && Calm(s, s.procs[p].key) && OneBuilder(s, s.procs[p].key)
    requires CalmInput(s.procs[p].pc, s.clock, input)
    ensures var t := Apply(s, Step(p, input)); Calm(t, s.procs[p].key) && OneBuilder(t, s.procs[p].key)
  {
    hide Calm, OneBuilder, StaysCalm, ViewCalm, StepCall, Write;
    var v := Look(s, p);
    LookCalm(s, p);
    StepCalm(v, input);
    StaysSame(v, StepCall(v, input));
    WriteCalm(s, StepCall(v, input), v.proc.key);
    WriteOneBuilder(s, StepCall(v, input), v.proc.key);
  }

  lemma StepOther(s: State, p: Pid, input: Input, key: Key)
    requires p in s.procs && s.procs[p].key != key
    ensures SameFor(s, Apply(s, Step(p, input)), key)
  {
    hide StepCall, At, With;
    var v := StepCall(Look(s, p), input);
    StepKeyed(Look(s, p), input);
    WithAt(s.entries, v.proc.key, v.entry, key);
    WithAt(s.locks, v.proc.key, v.lock, key);
  }

  lemma StepKeyed(v: View, input: Input)
    ensures var w := StepCall(v, input); w.pid == v.pid && w.proc.key == v.proc.key
    ensures v.proc.pc.Crashed? ==> StepCall(v, input).proc.pc.Crashed?
  {
    hide StepCall;
    CompileCacheLiveness.StepGoesOn(v, input);
    if v.proc.pc.Crashed? { CompileCacheLiveness.OverStays(v, input); }
  }

  lemma ApplyCalm(s: State, e: Event, key: Key)
    requires Calm(s, key) && OneBuilder(s, key) && CalmEvent(s, e, key)
    ensures var t := Apply(s, e); SomeCrashed(t, key) || (Calm(t, key) && OneBuilder(t, key))
  {
    hide Calm, OneBuilder;
    match e
    case Tick(_) => SameCalm(s, Apply(s, e), key);
    case Corrupt(k, _) => SameCalm(s, Apply(s, e), key);
    case Crash(p) =>
      if p in s.procs && s.procs[p].key == key && !s.procs[p].pc.Done? {
        assert Apply(s, e).procs[p].pc.Crashed?;
      } else {
        SameCalm(s, Apply(s, e), key);
      }
    case Step(p, input) =>
      hide Apply, SameFor;
      if p !in s.procs { assert Apply(s, e) == s by { NoSuchCall(s, p, input); } }
      else if s.procs[p].key == key { StepMine(s, p, input); }
      else {
        StepOther(s, p, input, key);
        SameCalm(s, Apply(s, e), key);
      }
  }

  lemma NoSuchCall(s: State, p: Pid, input: Input)
    requires p !in s.procs
    ensures Apply(s, Step(p, input)) == s
  {
  }

  lemma StaysSame(v: View, v': View)
    requires StaysCalm(v, v')
    ensures v'.pid == v.pid && v'.proc.key == v.proc.key
  {
  }

  lemma CrashedStays(s: State, e: Event, key: Key)
    requires SomeCrashed(s, key)
    ensures SomeCrashed(Apply(s, e), key)
  {
    hide StepCall, At, With;
    var p :| p in s.procs && s.procs[p].key == key && s.procs[p].pc.Crashed?;
    if e.Step? && e.pid in s.procs { StepKeyed(Look(s, e.pid), e.input); }
    var t := Apply(s, e);
    assert p in t.procs && t.procs[p].key == key && t.procs[p].pc.Crashed?;
  }

  lemma {:induction false} RunCalm(s: State, events: seq<Event>, key: Key)
    requires SomeCrashed(s, key) || (Calm(s, key) && OneBuilder(s, key))
    requires CalmRun(s, events, key)
    ensures var t := Run(s, events); SomeCrashed(t, key) || (Calm(t, key) && OneBuilder(t, key))
    decreases |events|
  {
    hide Calm, OneBuilder, CalmEvent, Apply, SomeCrashed;
    if events != [] {
      if SomeCrashed(s, key) { CrashedStays(s, events[0], key); } else { ApplyCalm(s, events[0], key); }
      RunCalm(Apply(s, events[0]), events[1..], key);
    }
  }

  lemma InitCalm(s: State, key: Key)
    requires Init(s)
    ensures Calm(s, key) && OneBuilder(s, key)
  {
    forall p | p in s.procs ensures CallCalm(s, p) {
    }
  }

  ghost predicate AllSucceeded(s: State, key: Key) {
    forall p :: p in s.procs && s.procs[p].key == key ==> s.procs[p].pc.Done? && s.procs[p].pc.outcome != Failed
  }

  /** When every call for an absent key succeeds, exactly one compiled, and it is the one that says "miss"; whatever
      happens to other keys meanwhile. */
  lemma ExactlyOneMiss(s: State, events: seq<Event>, key: Key, some: Pid) returns (builder: Pid)
    requires Init(s) && CalmRun(s, events, key)
    requires AllSucceeded(Run(s, events), key)
    requires some in Run(s, events).procs && Run(s, events).procs[some].key == key
    ensures var t := Run(s, events);
            && builder in t.procs && t.procs[builder].key == key
            && t.procs[builder].pc == Done(Miss) && t.procs[builder].compiled
            && forall p :: p in t.procs && t.procs[p].key == key && p != builder ==>
                 t.procs[p].pc == Done(Hit) && !t.procs[p].compiled
  {
    hide Run, CalmRun;
    InitCalm(s, key);
    RunCalm(s, events, key);
    var t := Run(s, events);
    forall p | p in t.procs && t.procs[p].key == key
      ensures !Failing(t.procs[p].pc) && key in t.entries
      ensures t.procs[p].pc == Done(if t.procs[p].compiled then Miss else Hit)
    {
      assert CallCalm(t, p);
    }
    assert Untroubled(t, key);
    builder :| CompiledBy(t, key, builder);
    forall p | p in t.procs && t.procs[p].key == key && p != builder ensures !t.procs[p].compiled {
      assert t.procs[p].compiled ==> CompiledBy(t, key, p);
    }
  }
}
