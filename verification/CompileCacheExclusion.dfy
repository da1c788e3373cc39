/** When the lock of the compile cache keeps calls apart, and exactly what breaks it. */
module CompileCacheExclusion {
  import opened Options
  import opened CompileCache

  /** Between acquiring the lock and releasing it. */
  predicate Critical(pc: Pc) {
    match pc
    case ReadRecord(site) => site.Locked?
    case StatBinary(site, _) => site.Locked?
    case ReadBinary(site, _) => site.Locked?
    case Publish(_, _, locked) => locked
    case _ => pc.ClearEntry? || pc.RemoveStage? || pc.Release? || Building(pc)
  }

  /** From making the staging directory to renaming it. */
  predicate Building(pc: Pc) {
    pc.MakeStage? || pc.Compile? || Built(pc)
  }

  /** The compile is done, the rename is not. */
  predicate Built(pc: Pc) { pc.ReadCandidate? || pc.Chmod? || pc.WriteRecord? || pc.RenameStage? }

  /** On the way to an answer, or there. */
  predicate Answering(pc: Pc, outcome: Outcome) {
    match pc
    case Publish(_, o, _) => o == outcome
    case Release(o) => o == outcome
    case Done(o) => o == outcome
    case _ => false
  }

  predicate Failing(pc: Pc) { pc.RemoveStage? || Answering(pc, Failed) }

  // ---- the lock belongs to the call it lets in ----

  predicate HoldsLock(pid: Pid, pc: Pc, lock: Option<Lock>) { Critical(pc) ==> lock.Some? && lock.value.owner == pid }

  /** Every call between acquiring and releasing still has its lock. */
  ghost predicate Owns(s: State) {
    forall p :: p in s.procs ==> HoldsLock(p, s.procs[p].pc, At(s.locks, s.procs[p].key))
  }

  /** The step removes, as stale, the lock of a call that is still at work. */
  predicate Harmful(s: State, e: Event) {
    && e.Step? && e.pid in s.procs && s.procs[e.pid].pc.StealLock? && e.input != Error
    && var key := s.procs[e.pid].key;
    && key in s.locks
    && var q := s.locks[key].owner;
    q in s.procs && s.procs[q].key == key && Critical(s.procs[q].pc)
  }

  /** What a step may do to the lock: take it when it is free, release its own, or steal. */
  predicate LockStep(v: View, input: Input, w: View) {
    && w.pid == v.pid && w.clock == v.clock && w.proc.key == v.proc.key && HoldsLock(w.pid, w.proc.pc, w.lock)
    && (|| w.lock == v.lock || v.lock.None? || v.lock.value.owner == v.pid
        || (v.proc.pc.StealLock? && input != Error))
    && (v.proc.pc.StealLock? && input != Error ==> w.lock.None?)
    && (Critical(w.proc.pc) && !Critical(v.proc.pc) ==> v.lock.None?)
  }

  lemma VerifyHolds(v: View, input: Input)
    requires HoldsLock(v.pid, v.proc.pc, v.lock) && Verifying(v.proc.pc)
    ensures LockStep(v, input, StepVerify(v, input))
  {
  }

  lemma LockHolds(v: View, input: Input)
    requires HoldsLock(v.pid, v.proc.pc, v.lock) && Locking(v.proc.pc)
    ensures LockStep(v, input, StepLock(v, input))
  {
  }

  lemma PublishHolds(v: View, input: Input)
    requires HoldsLock(v.pid, v.proc.pc, v.lock) && v.proc.pc.Publish?
    ensures LockStep(v, input, StepPublish(v, input))
  {
  }

  lemma CleanHolds(v: View, input: Input)
    requires HoldsLock(v.pid, v.proc.pc, v.lock) && Cleaning(v.proc.pc)
    ensures LockStep(v, input, StepClean(v, input))
  {
  }

  lemma BuildHolds(v: View, input: Input)
    requires HoldsLock(v.pid, v.proc.pc, v.lock)
    requires !Verifying(v.proc.pc) && !Locking(v.proc.pc) && !v.proc.pc.Publish? && !Cleaning(v.proc.pc)
    ensures LockStep(v, input, StepBuild(v, input))
  {
  }

  lemma StepHolds(v: View, input: Input)
    requires HoldsLock(v.pid, v.proc.pc, v.lock)
    ensures LockStep(v, input, StepCall(v, input))
  {
    hide LockStep, HoldsLock, StepVerify, StepLock, StepPublish, StepClean, StepBuild;
    if Verifying(v.proc.pc) { VerifyHolds(v, input); }
    else if Locking(v.proc.pc) { LockHolds(v, input); }
    else if v.proc.pc.Publish? { PublishHolds(v, input); }
    else if Cleaning(v.proc.pc) { CleanHolds(v, input); }
    else { BuildHolds(v, input); }
  }

  /** A step of one call, as every call sees it. */
  lemma StepSeen(s: State, p: Pid, input: Input)
    requires Owns(s) && p in s.procs
    ensures var v, t := Look(s, p), Apply(s, Step(p, input));
            var w := StepCall(v, input);
            && LockStep(v, input, w) && t.procs.Keys == s.procs.Keys && t.procs[p] == w.proc
            && (forall q :: q in s.procs && q != p ==> t.procs[q] == s.procs[q])
            && (forall k :: At(t.locks, k) == if k == v.proc.key then w.lock else At(s.locks, k))
            && (forall k :: At(t.entries, k) == if k == v.proc.key then w.entry else At(s.entries, k))
  {
    hide StepCall, HoldsLock, LockStep, At, With;
    var v := Look(s, p);
    assert HoldsLock(p, s.procs[p].pc, At(s.locks, s.procs[p].key));
    StepHolds(v, input);
    var w := StepCall(v, input);
    SamePid(v, input, w);
    forall k ensures At(With(s.locks, v.proc.key, w.lock), k) == if k == v.proc.key then w.lock else At(s.locks, k)
      ensures At(With(s.entries, v.proc.key, w.entry), k) == if k == v.proc.key then w.entry else At(s.entries, k)
    {
      WithAt(s.locks, v.proc.key, w.lock, k);
      WithAt(s.entries, v.proc.key, w.entry, k);
    }
  }

  lemma SamePid(v: View, input: Input, w: View)
    requires LockStep(v, input, w)
    ensures w.pid == v.pid && w.proc.key == v.proc.key
  {
  }

  /** One step, exactly: the lock stays with the calls it let in unless the step is harmful. */
  lemma StepOwns(s: State, e: Event)
    requires Owns(s)
    ensures Owns(Apply(s, e)) <==> !Harmful(s, e)
  {
    hide StepCall, Critical;
    match e
    case Step(p, input) =>
      if p in s.procs {
        hide Apply, Write;
        StepSeen(s, p, input);
        var v, t := Look(s, p), Apply(s, e);
        var w, key := StepCall(v, input), v.proc.key;
        if Harmful(s, e) {
          var q := s.locks[key].owner;
          assert !HoldsLock(q, t.procs[q].pc, At(t.locks, key)) by { ThiefOutside(v.proc.pc); }
        } else {
          forall q | q in t.procs ensures HoldsLock(q, t.procs[q].pc, At(t.locks, t.procs[q].key)) {
            if q != p { assert HoldsLock(q, s.procs[q].pc, At(s.locks, s.procs[q].key)); }
          }
        }
      }
    case Crash(p) => CrashedOutside();
    case _ =>
  }

  lemma ThiefOutside(pc: Pc)
    ensures pc.StealLock? ==> !Critical(pc)
  {
  }

  lemma CrashedOutside()
    ensures !Critical(Crashed)
  {
  }

  // ---- exclusion ----

  predicate TwoIn(s: State, p: Pid, q: Pid) {
    && p in s.procs && q in s.procs && p != q && s.procs[p].key == s.procs[q].key
    && Critical(s.procs[p].pc) && Critical(s.procs[q].pc)
  }

  /** At most one call per key is between acquiring the lock and releasing it. */
  ghost predicate Exclusive(s: State) { forall p, q :: !TwoIn(s, p, q) }

  lemma OwnsExclusive(s: State)
    requires Owns(s)
    ensures Exclusive(s)
  {
    hide Critical;
    forall p, q ensures !TwoIn(s, p, q) {
      if p in s.procs && q in s.procs {
        assert HoldsLock(p, s.procs[p].pc, At(s.locks, s.procs[p].key));
        assert HoldsLock(q, s.procs[q].pc, At(s.locks, s.procs[q].key));
      }
    }
  }

  /** One step, harmful or not, lets no second call in. */
  lemma StillExclusive(s: State, e: Event)
    requires Owns(s)
    ensures Exclusive(Apply(s, e))
  {
    hide StepCall, Critical, HoldsLock;
    StepOwns(s, e);
    if Harmful(s, e) {
      hide Apply, Write;
      OwnsExclusive(s);
      StepSeen(s, e.pid, e.input);
      Outside(Look(s, e.pid), e.input, StepCall(Look(s, e.pid), e.input));
      forall p, q ensures !TwoIn(Apply(s, e), p, q) { assert !TwoIn(s, p, q); }
    } else {
      OwnsExclusive(Apply(s, e));
    }
  }

  lemma Outside(v: View, input: Input, w: View)
    requires LockStep(v, input, w) && v.proc.pc.StealLock? && input != Error
    ensures !Critical(w.proc.pc)
  {
  }

  /** After a harmful step the thief has only to try again: two calls are in. */
  lemma HarmBreaks(s: State, e: Event)
    requires Owns(s) && Harmful(s, e)
    ensures !Exclusive(Apply(Apply(s, e), Step(e.pid, Ok)))
  {
    hide Critical, HoldsLock;
    var p, t := e.pid, Apply(s, e);
    var key := s.procs[p].key;
    var q, u := s.locks[key].owner, Apply(t, Step(p, Ok));
    ThiefOutside(s.procs[p].pc);
    Thief(Look(s, p), e.input);
    assert t.procs[p].pc.TryLock? && key !in t.locks;
    assert u.procs[p].pc == ReadRecord(Locked) && Critical(u.procs[p].pc) by { LetIn(); }
    assert u.procs[q] == s.procs[q] && u.procs[p].key == key;
    assert TwoIn(u, p, q);
  }

  lemma LetIn()
    ensures Critical(ReadRecord(Locked))
  {
  }

  lemma Thief(v: View, input: Input)
    requires v.proc.pc.StealLock? && input != Error
    ensures StepCall(v, input) == v.(lock := None, proc := v.proc.(pc := TryLock(v.proc.pc.deadline)))
  {
  }

  // ---- over whole runs ----

  predicate Harmless(s: State, events: seq<Event>)
    decreases |events|
  {
    events == [] || (!Harmful(s, events[0]) && Harmless(Apply(s, events[0]), events[1..]))
  }

  ghost predicate OwnsThroughout(s: State, events: seq<Event>)
    decreases |events|
  {
    Owns(s) && (events == [] || OwnsThroughout(Apply(s, events[0]), events[1..]))
  }

  /** Wherever the run stands, nothing that may happen next lets a second call in. */
  ghost predicate ExclusiveThroughout(s: State, events: seq<Event>)
    decreases |events|
  {
    && Exclusive(s) && (forall e :: Exclusive(Apply(s, e)))
    && (events == [] || ExclusiveThroughout(Apply(s, events[0]), events[1..]))
  }

  /** The exact condition: a run keeps calls apart, and the lock with its owner, if and only if no step of it is
      harmful. */
  lemma {:induction false} ExclusionExact(s: State, events: seq<Event>)
    requires Owns(s)
    ensures OwnsThroughout(s, events) <==> Harmless(s, events)
    ensures ExclusiveThroughout(s, events) <==> Harmless(s, events)
    decreases |events|
  {
    hide Apply, Exclusive, Owns, Critical;
    OwnsExclusive(s);
    forall e ensures Exclusive(Apply(s, e)) { StillExclusive(s, e); }
    if events != [] {
      var e := events[0];
      StepOwns(s, e);
      if Harmful(s, e) {
        HarmBreaks(s, e);
        NotThroughout(Apply(s, e), events[1..], e.pid);
      } else {
        ExclusionExact(Apply(s, e), events[1..]);
      }
    }
  }

  lemma NotThroughout(s: State, events: seq<Event>, p: Pid)
    requires !Owns(s) && !Exclusive(Apply(s, Step(p, Ok)))
    ensures !OwnsThroughout(s, events) && !ExclusiveThroughout(s, events)
  {
  }

  // ---- the rename meets no entry ----

  predicate NothingThere(pc: Pc, entry: Option<Dir>) { Building(pc) ==> entry.None? }

  ghost predicate Cleared(s: State) {
    forall p :: p in s.procs ==> NothingThere(s.procs[p].pc, At(s.entries, s.procs[p].key))
  }

  lemma StepCleared(v: View, input: Input)
    requires NothingThere(v.proc.pc, v.entry)
    ensures var w := StepCall(v, input);
            NothingThere(w.proc.pc, w.entry) && (v.entry.None? && w.entry.Some? ==> Building(v.proc.pc))
  {
    hide StepVerify, StepLock, StepPublish;
    if Verifying(v.proc.pc) { VerifyLeaves(v, input); }
    else if Locking(v.proc.pc) { LockLeaves(v, input); }
    else if v.proc.pc.Publish? { PublishLeaves(v, input); }
  }

  lemma VerifyLeaves(v: View, input: Input)
    requires Verifying(v.proc.pc)
    ensures var w := StepVerify(v, input); w.entry == v.entry && !Building(w.proc.pc)
  {
  }

  lemma LockLeaves(v: View, input: Input)
    requires Locking(v.proc.pc)
    ensures var w := StepLock(v, input); w.entry == v.entry && !Building(w.proc.pc)
  {
  }

  lemma PublishLeaves(v: View, input: Input)
    requires v.proc.pc.Publish?
    ensures var w := StepPublish(v, input); w.entry == v.entry && !Building(w.proc.pc)
  {
  }
  lemma ApplyCleared(s: State, e: Event)
    requires Owns(s) && Cleared(s)
    ensures Cleared(Apply(s, e))
  {
    hide StepCall, Building, Critical;
    match e
    case Step(p, input) =>
      if p in s.procs {
        hide Apply, Write;
        OwnsExclusive(s);
        StepSeen(s, p, input);
        var v, t := Look(s, p), Apply(s, e);
        assert NothingThere(v.proc.pc, v.entry);
        StepCleared(v, input);
        forall q | q in t.procs ensures NothingThere(t.procs[q].pc, At(t.entries, t.procs[q].key)) {
          if q != p {
            assert NothingThere(s.procs[q].pc, At(s.entries, s.procs[q].key));
            BuildingInside(s.procs[q].pc);
            BuildingInside(v.proc.pc);
          }
        }
      }
    case Corrupt(key, binary) =>
      forall q | q in s.procs ensures NothingThere(s.procs[q].pc, At(Apply(s, e).entries, s.procs[q].key)) {
        assert NothingThere(s.procs[q].pc, At(s.entries, s.procs[q].key));
      }
    case Crash(p) => NobodyBuilds();
    case _ =>
  }

  lemma BuildingInside(pc: Pc)
    ensures Building(pc) ==> Critical(pc)
  {
  }

  lemma NobodyBuilds()
    ensures !Building(Crashed)
  {
  }

  /** The guard of the steal: the call finds the lock it looked at older than the limit. */
  predicate JudgesStale(s: State, e: Event) {
    && e.Step? && e.pid in s.procs && s.procs[e.pid].pc.JudgeLock?
    && s.clock - s.procs[e.pid].pc.mtime > 15 * 60_000
  }

  predicate NoneJudgedStale(s: State, events: seq<Event>)
    decreases |events|
  {
    events == [] || (!JudgesStale(s, events[0]) && NoneJudgedStale(Apply(s, events[0]), events[1..]))
  }

  ghost predicate NoThief(s: State) { forall p :: p in s.procs ==> !s.procs[p].pc.StealLock? }

  lemma ApplyNoThief(s: State, e: Event)
    requires NoThief(s) && !JudgesStale(s, e)
    ensures NoThief(Apply(s, e))
  {
    if e.Step? && e.pid in s.procs {
      hide StepCall;
      Honest(Look(s, e.pid), e.input);
    }
  }

  lemma Honest(v: View, input: Input)
    requires !v.proc.pc.StealLock? && (v.proc.pc.JudgeLock? ==> v.clock - v.proc.pc.mtime <= STALE)
    ensures var w := StepCall(v, input); !w.proc.pc.StealLock? && w.pid == v.pid
  {
    hide StepVerify, StepPublish, StepClean, StepBuild;
    if !Locking(v.proc.pc) { NotLocking(v, input); }
  }

  lemma NotLocking(v: View, input: Input)
    requires !Locking(v.proc.pc)
    ensures var w := StepCall(v, input); !w.proc.pc.StealLock? && w.pid == v.pid
  {
  }

  lemma NoneHarmful(s: State, e: Event)
    requires NoThief(s)
    ensures !Harmful(s, e)
  {
  }

  lemma {:induction false} GuardSuffices(s: State, events: seq<Event>)
    requires NoThief(s) && NoneJudgedStale(s, events)
    ensures Harmless(s, events)
    decreases |events|
  {
    hide Apply, JudgesStale, NoThief;
    if events != [] {
      NoneHarmful(s, events[0]);
      ApplyNoThief(s, events[0]);
      GuardSuffices(Apply(s, events[0]), events[1..]);
    }
  }

  lemma {:induction false} RunOwns(s: State, events: seq<Event>)
    requires Owns(s) && Cleared(s) && Harmless(s, events)
    ensures Owns(Run(s, events)) && Cleared(Run(s, events))
    decreases |events|
  {
    hide Apply, Owns, Cleared, Harmful;
    if events != [] {
      StepOwns(s, events[0]);
      ApplyCleared(s, events[0]);
      RunOwns(Apply(s, events[0]), events[1..]);
    }
  }

  lemma RunCleared(s: State, events: seq<Event>)
    requires Init(s) && Harmless(s, events)
    ensures Owns(Run(s, events)) && Cleared(Run(s, events))
  {
    RunOwns(s, events);
  }

  /** Whatever crashes, is damaged or cannot be read: as long as no call judges a lock stale, one call at a time is
      between acquiring the lock of a key and releasing it, and the rename that publishes an entry never
      finds one there. */
  lemma Exclusion(s: State, events: seq<Event>)
    requires Init(s) && NoneJudgedStale(s, events)
    ensures Exclusive(Run(s, events))
    ensures var t := Run(s, events);
            forall p :: p in t.procs && t.procs[p].pc.RenameStage? ==> t.procs[p].key !in t.entries
  {
    GuardSuffices(s, events);
    RunCleared(s, events);
    var t := Run(s, events);
    OwnsExclusive(t);
    forall p | p in t.procs && t.procs[p].pc.RenameStage? ensures t.procs[p].key !in t.entries {
      assert NothingThere(t.procs[p].pc, At(t.entries, t.procs[p].key));
    }
  }

  // ---- why the age of the lock itself is not enough ----

  /** No lock directory is older than the limit. */
  ghost predicate YoungLocks(s: State) { forall k :: k in s.locks ==> s.clock - s.locks[k].mtime <= 15 * 60_000 }

  /** No crash and no corruption, and no lock ever gets old. */
  ghost predicate YoungRun(s: State, events: seq<Event>)
    decreases |events|
  {
    && YoungLocks(s)
    && (events == [] || ((events[0].Tick? || events[0].Step?) && YoungRun(Apply(s, events[0]), events[1..])))
  }

  /** Three calls for key 0, nothing stored. */
  function Three(clock: nat, lock: Option<Lock>, pc0: Pc, pc1: Pc, pc2: Pc): State {
    State(clock, map[], Only(lock), map[], Procs(pc0, pc1, pc2), {}, map[])
  }

  function Procs(pc0: Pc, pc1: Pc, pc2: Pc): map<Pid, Proc> {
    map[0 := Idle(0, pc0), 1 := Idle(1, pc1), 2 := Idle(2, pc2)]
  }

  function Only(lock: Option<Lock>): map<Key, Lock> { if lock.Some? then map[0 := lock.value] else map[] }

  function Idle(p: Pid, pc: Pc): Proc { Proc(0, p, pc, None, None, false) }

  lemma ThreeStep(clock: nat, lock: Option<Lock>, pc0: Pc, pc1: Pc, pc2: Pc, p: Pid, input: Input,
                  pc: Pc, lock': Option<Lock>)
    requires p < 3
    requires var v := View(clock, p, Idle(p, Pick(p, pc0, pc1, pc2)), None, lock, None, None);
             StepCall(v, input) == v.(proc := Idle(p, pc), lock := lock')
    ensures Apply(Three(clock, lock, pc0, pc1, pc2), Step(p, input))
            == Three(clock, lock', if p == 0 then pc else pc0, if p == 1 then pc else pc1, if p == 2 then pc else pc2)
  {
    hide StepCall, Write;
    var s, q := Three(clock, lock, pc0, pc1, pc2), if p == 0 then pc0 else if p == 1 then pc1 else pc2;
    var v := View(clock, p, Idle(p, q), None, lock, None, None);
    assert Look(s, p) == v;
    ThreeWrite(clock, lock, pc0, pc1, pc2, p, pc, lock');
  }

  lemma ThreeWrite(clock: nat, lock: Option<Lock>, pc0: Pc, pc1: Pc, pc2: Pc, p: Pid, pc: Pc, lock': Option<Lock>)
    requires p < 3
    ensures Write(Three(clock, lock, pc0, pc1, pc2), View(clock, p, Idle(p, pc), None, lock', None, None))
            == Three(clock, lock', if p == 0 then pc else pc0, if p == 1 then pc else pc1, if p == 2 then pc else pc2)
  {
    hide Procs, Only, With;
    NoEntry();
    OnlyWith(lock, lock');
    ProcsWith(pc0, pc1, pc2, pc);
    assert Idle(p, pc).key == 0;
  }

  lemma NoEntry()
    ensures With<Dir>(map[], 0, None) == map[]
  {
  }

  lemma OnlyWith(lock: Option<Lock>, lock': Option<Lock>)
    ensures With(Only(lock), 0, lock') == Only(lock')
  {
  }

  lemma ProcsWith(pc0: Pc, pc1: Pc, pc2: Pc, pc: Pc)
    ensures Procs(pc0, pc1, pc2)[0 := Idle(0, pc)] == Procs(pc, pc1, pc2)
    ensures Procs(pc0, pc1, pc2)[1 := Idle(1, pc)] == Procs(pc0, pc, pc2)
    ensures Procs(pc0, pc1, pc2)[2 := Idle(2, pc)] == Procs(pc0, pc1, pc)
  {
  }

  function Pick(p: Pid, pc0: Pc, pc1: Pc, pc2: Pc): Pc { if p == 0 then pc0 else if p == 1 then pc1 else pc2 }

  lemma YoungStep(s: State, e: Event, events: seq<Event>)
    requires YoungLocks(s) && (e.Tick? || e.Step?) && YoungRun(Apply(s, e), events)
    ensures YoungRun(s, [e] + events) && Run(s, [e] + events) == Run(Apply(s, e), events)
  {
    assert ([e] + events)[1..] == events;
  }

  /** Puts one step of call `p` in front of a run from the state that step leads to. */
  lemma Before(clock: nat, lock: Option<Lock>, pc0: Pc, pc1: Pc, pc2: Pc, p: Pid, input: Input,
               pc: Pc, lock': Option<Lock>, rest: seq<Event>)
    returns (events: seq<Event>)
    requires p < 3 && (lock.Some? ==> clock - lock.value.mtime <= STALE)
    requires var v := View(clock, p, Idle(p, Pick(p, pc0, pc1, pc2)), None, lock, None, None);
             StepCall(v, input) == v.(proc := Idle(p, pc), lock := lock')
    requires YoungRun(
               Three(clock, lock', if p == 0 then pc else pc0, if p == 1 then pc else pc1, if p == 2 then pc else pc2),
               rest)
    ensures YoungRun(Three(clock, lock, pc0, pc1, pc2), events)
    ensures Run(Three(clock, lock, pc0, pc1, pc2), events)
            == Run(Three(clock, lock', if p == 0 then pc else pc0,
                         if p == 1 then pc else pc1, if p == 2 then pc else pc2),
                   rest)
  {
    hide StepCall, Run, YoungRun, Apply;
    ThreeStep(clock, lock, pc0, pc1, pc2, p, input, pc, lock');
    YoungStep(Three(clock, lock, pc0, pc1, pc2), Step(p, input), rest);
    events := [Step(p, input)] + rest;
  }

  /** After the wait: call 2 takes the lock; call 1 judges what it saw, removes that lock and takes it too. */
  lemma AfterTheWait() returns (events: seq<Event>)
    ensures var from := Three(STALE + 1, None, Done(Failed), JudgeLock(DEADLINE, 0), ReadRecord(Entry));
            && YoungRun(from, events)
            && Run(from, events)
               == Three(STALE + 1, Some(Lock(STALE + 1, 1)), Done(Failed), ReadRecord(Locked), ReadRecord(Locked))
  {
    hide Run, Apply, Three;
    var late, d, idle, held := STALE + 1, DEADLINE, Done(Failed), ReadRecord(Locked);
    var young, seen := Some(Lock(late, 2)), JudgeLock(d, 0);
    events := [];
    EmptyRun(late, Some(Lock(late, 1)), idle, held, held);
    events := Before(late, None, idle, TryLock(d), held, 1, Ok, held, Some(Lock(late, 1)), events);
    events := Before(late, young, idle, StealLock(d), held, 1, Ok, TryLock(d), None, events);
    events := Before(late, young, idle, seen, held, 1, Ok, StealLock(d), young, events);
    events := Before(late, None, idle, seen, TryLock(late + d), 2, Ok, held, young, events);
    events := Before(late, None, idle, seen, MakeRoot, 2, Ok, TryLock(late + d), None, events);
    events := Before(late, None, idle, seen, ReadRecord(Entry), 2, Ok, MakeRoot, None, events);
  }

  lemma EmptyRun(clock: nat, lock: Option<Lock>, pc0: Pc, pc1: Pc, pc2: Pc)
    requires lock.Some? ==> clock - lock.value.mtime <= STALE
    ensures var s := Three(clock, lock, pc0, pc1, pc2); YoungRun(s, []) && Run(s, []) == s
  {
  }

  /** Before it: call 0 takes the lock, call 1 looks at it, call 0 fails to clear the entry and releases. */
  lemma BeforeTheWait(later: seq<Event>) returns (events: seq<Event>)
    requires YoungRun(Three(0, None, Done(Failed), JudgeLock(DEADLINE, 0), ReadRecord(Entry)), later)
    ensures var s := Three(0, None, ReadRecord(Entry), ReadRecord(Entry), ReadRecord(Entry));
            && YoungRun(s, events)
            && Run(s, events) == Run(Three(0, None, Done(Failed), JudgeLock(DEADLINE, 0), ReadRecord(Entry)), later)
  {
    hide Run, Apply, Three, YoungRun;
    var d, start, held, mine := DEADLINE, ReadRecord(Entry), ReadRecord(Locked), Some(Lock(0, 0));
    var seen := JudgeLock(d, 0);
    events := Before(0, mine, Release(Failed), seen, start, 0, Ok, Done(Failed), None, later);
    events := Before(0, mine, ClearEntry, seen, start, 0, Error, Release(Failed), mine, events);
    events := Before(0, mine, held, seen, start, 0, Ok, ClearEntry, mine, events);
    events := Looking(events);
    events := Before(0, None, TryLock(d), start, start, 0, Ok, held, mine, events);
    events := Before(0, None, MakeRoot, start, start, 0, Ok, TryLock(d), None, events);
    events := Before(0, None, start, start, start, 0, Ok, MakeRoot, None, events);
  }

  lemma Looking(later: seq<Event>) returns (events: seq<Event>)
    requires YoungRun(Three(0, Some(Lock(0, 0)), ReadRecord(Locked), JudgeLock(DEADLINE, 0), ReadRecord(Entry)), later)
    ensures var s := Three(0, Some(Lock(0, 0)), ReadRecord(Locked), ReadRecord(Entry), ReadRecord(Entry));
            && YoungRun(s, events)
            && Run(s, events)
               == Run(Three(0, Some(Lock(0, 0)), ReadRecord(Locked), JudgeLock(DEADLINE, 0), ReadRecord(Entry)), later)
  {
    hide Run, Apply, Three, YoungRun;
    var d, start, held, mine := DEADLINE, ReadRecord(Entry), ReadRecord(Locked), Some(Lock(0, 0));
    events := Before(0, mine, held, StatLock(d), start, 1, Ok, JudgeLock(d, 0), mine, later);
    events := Before(0, mine, held, ReadRecord(Waiting(d)), start, 1, Ok, StatLock(d), mine, events);
    events := Before(0, mine, held, TryLock(d), start, 1, Ok, ReadRecord(Waiting(d)), mine, events);
    events := Before(0, mine, held, MakeRoot, start, 1, Ok, TryLock(d), mine, events);
    events := Before(0, mine, held, start, start, 1, Ok, MakeRoot, mine, events);
  }

  /** Call 1 looks at call 0's lock and is overtaken by its release. When it comes to judge what it saw, it removes
      the young lock of call 2: no lock was ever old, and yet two calls hold it at once. */
  lemma YoungLocksAreNotEnough() returns (s: State, events: seq<Event>)
    ensures Init(s) && YoungRun(s, events)
    ensures TwoIn(Run(s, events), 1, 2)
  {
    hide Run, Apply, YoungRun;
    var start, seen := ReadRecord(Entry), JudgeLock(DEADLINE, 0);
    events := AfterTheWait();
    TickThree(Done(Failed), seen, start);
    YoungStep(Three(0, None, Done(Failed), seen, start), Tick(STALE + 1), events);
    events := BeforeTheWait([Tick(STALE + 1)] + events);
    s := Three(0, None, start, start, start);
  }

  lemma TickThree(pc0: Pc, pc1: Pc, pc2: Pc)
    ensures Apply(Three(0, None, pc0, pc1, pc2), Tick(STALE + 1)) == Three(STALE + 1, None, pc0, pc1, pc2)
    ensures YoungLocks(Three(0, None, pc0, pc1, pc2))
  {
  }
}
