/** The lock of the SQLite cache: whom it keeps apart, and that it is given up. */
module SqliteLock {
  import opened Options
  import opened SqlitePublish

  /** From making the stage to its last rename. */
  predicate Staging(pc: Pc) {
    || pc.Compile? || pc.Download? || pc.Unpack? || pc.DigestStage? || pc.WriteManifest? || pc.RenamePayload?
    || pc.RenameManifest?
  }

  /** Between acquiring the lock and releasing it. */
  predicate Inside(pc: Pc) { (Checking(pc) && pc.locked) || Staging(pc) || pc.RemoveStage? || pc.Release? }

  predicate InsideAt(s: State, p: Pid, slot: Slot) {
    p in s.builders && s.builders[p].slot == slot && Inside(s.builders[p].pc)
  }

  /** What a step may do: take the lock when it is free, hold it until its release removes it, remove an old one; and
      whatever is staged is removed before the call goes on to its end. */
  predicate LockStep(v: View, input: Input, w: View) {
    var before, after := Inside(v.builder.pc), Inside(w.builder.pc);
    && w.builder.slot == v.builder.slot && w.clock == v.clock
    && (Staging(v.builder.pc) ==> Staging(w.builder.pc) || w.builder.pc.RemoveStage?)
    && (after && !before ==> v.lock == None && w.lock == Some(v.clock))
    && (before && after ==> w.lock == v.lock)
    && (before && !after ==> v.builder.pc.Release? && w.lock == if input == Error then v.lock else None)
    && (!before && !after ==> w.lock == v.lock || (v.builder.pc.StealLock? && w.lock == None))
    && (w.builder.pc.StealLock? ==>
          v.builder.pc.StealLock? || (v.builder.pc.JudgeLock? && v.clock - v.builder.pc.mtime > 5 * 60_000))
    && (v.builder.pc.Crashed? ==> w.builder.pc.Crashed?)
  }

  lemma OthersLock(v: View, input: Input)
    requires v.builder.pc.DigestSource? || Checking(v.builder.pc)
    ensures LockStep(v, input, StepBuilder(v, input))
  {
    hide StepLock, StepMake;
  }

  lemma LockLocks(v: View, input: Input)
    requires Locking(v.builder.pc)
    ensures LockStep(v, input, StepLock(v, input))
  {
  }

  lemma MakeLocks(v: View, input: Input)
    requires !v.builder.pc.DigestSource? && !Checking(v.builder.pc) && !Locking(v.builder.pc)
    ensures LockStep(v, input, StepMake(v, input))
  {
  }

  lemma StepLocks(v: View, input: Input)
    ensures LockStep(v, input, StepBuilder(v, input))
  {
    hide LockStep, StepDigest, StepCheck, StepLock, StepMake;
    if v.builder.pc.DigestSource? || Checking(v.builder.pc) { OthersLock(v, input); }
    else if Locking(v.builder.pc) { LockLocks(v, input); }
    else { MakeLocks(v, input); }
  }

  /** A step of one call, as every call sees it. */
  lemma StepSeen(s: State, p: Pid, input: Input)
    requires p in s.builders
    ensures var v, t := Look(s, p), Apply(s, Step(p, input));
            var w := StepBuilder(v, input);
            && LockStep(v, input, w) && t.clock == s.clock && t.builders.Keys == s.builders.Keys
            && t.builders[p] == w.builder
            && (forall q :: q in s.builders && q != p ==>
                  t.builders[q].slot == s.builders[q].slot && t.builders[q].pc == s.builders[q].pc)
            && (forall k :: At(t.locks, k) == if k == v.builder.slot then w.lock else At(s.locks, k))
  {
    hide StepBuilder, LockStep, At, With;
    var v := Look(s, p);
    StepLocks(v, input);
    var w := StepBuilder(v, input);
    SameSlot(v, input, w);
    var slot := v.builder.slot;
    forall k ensures At(With(s.locks, slot, w.lock), k) == if k == slot then w.lock else At(s.locks, k) {
      WithAt(s.locks, slot, w.lock, k);
    }
  }

  lemma SameSlot(v: View, input: Input, w: View)
    requires LockStep(v, input, w)
    ensures w.builder.slot == v.builder.slot && w.clock == v.clock
  {
  }

  // ---- exclusion ----

  /** The guard of the steal: the call finds the lock it looked at older than 5 minutes. */
  predicate JudgesStale(s: State, e: Event) {
    && e.Step? && e.pid in s.builders && s.builders[e.pid].pc.JudgeLock?
    && s.clock - s.builders[e.pid].pc.mtime > 5 * 60_000
  }

  predicate NoneJudgedStale(s: State, events: seq<Event>)
    decreases |events|
  {
    events == [] || (!JudgesStale(s, events[0]) && NoneJudgedStale(Apply(s, events[0]), events[1..]))
  }

  /** One call at a time is inside, the lock is there meanwhile, and nobody is about to remove it. */
  ghost predicate Exclusive(s: State) {
    && (forall p, q, slot :: InsideAt(s, p, slot) && InsideAt(s, q, slot) ==> p == q)
    && (forall p, slot :: InsideAt(s, p, slot) ==> At(s.locks, slot).Some?)
    && (forall p :: p in s.builders ==> !s.builders[p].pc.StealLock?)
  }

  lemma StepExclusive(s: State, p: Pid, input: Input)
    requires Exclusive(s) && p in s.builders && !JudgesStale(s, Step(p, input))
    ensures Exclusive(Apply(s, Step(p, input)))
  {
    hide Apply, StepBuilder, Inside, At;
    StepSeen(s, p, input);
    var t, slot := Apply(s, Step(p, input)), s.builders[p].slot;
    forall q, k | q != p ensures InsideAt(t, q, k) <==> InsideAt(s, q, k) {
    }
    assert InsideAt(s, p, slot) <==> Inside(s.builders[p].pc);
    forall q, r, k | InsideAt(t, q, k) && InsideAt(t, r, k) ensures q == r {
      if q != p && r != p { assert InsideAt(s, q, k) && InsideAt(s, r, k); }
      else if q != p { assert InsideAt(s, q, k); }
      else if r != p { assert InsideAt(s, r, k); }
    }
    forall q, k | InsideAt(t, q, k) ensures At(t.locks, k).Some? {
      if q != p {
        assert InsideAt(s, q, k);
        assert k == slot ==> !InsideAt(s, p, slot);
      }
    }
  }

  /** Nobody moved, but some may have been killed. */
  predicate OnlyCrashes(s: State, t: State) {
    && t.locks == s.locks && t.builders.Keys == s.builders.Keys
    && forall p :: p in s.builders ==>
         && t.builders[p].slot == s.builders[p].slot
         && (t.builders[p].pc == s.builders[p].pc || t.builders[p].pc.Crashed?)
  }

  lemma SameExclusive(s: State, t: State)
    requires Exclusive(s) && OnlyCrashes(s, t)
    ensures Exclusive(t)
  {
    CrashedOutside();
    hide Inside, At;
    assert forall p, slot :: InsideAt(t, p, slot) ==> InsideAt(s, p, slot);
  }

  lemma CrashedOutside()
    ensures forall pc: Pc :: pc.Crashed? ==> !Inside(pc)
  {
  }

  lemma {:induction false} RunExclusive(s: State, events: seq<Event>)
    requires Exclusive(s) && NoneJudgedStale(s, events)
    ensures Exclusive(Run(s, events))
    decreases |events|
  {
    hide Exclusive, StepBuilder, JudgesStale;
    if events != [] {
      var t := Apply(s, events[0]);
      if events[0].Step? {
        if events[0].pid in s.builders { hide Apply; StepExclusive(s, events[0].pid, events[0].input); }
      } else {
        SameExclusive(s, t);
      }
      RunExclusive(t, events[1..]);
    }
  }

  /** Whatever crashes or is damaged: as long as no call judges a lock older than 5 minutes, one call at a time is
      between acquiring the lock of a slot and releasing it. */
  lemma Exclusion(s: State, events: seq<Event>, p: Pid, q: Pid, slot: Slot)
    requires Init(s) && NoneJudgedStale(s, events)
    ensures var t := Run(s, events); InsideAt(t, p, slot) && InsideAt(t, q, slot) ==> p == q
  {
    RunExclusive(s, events);
  }

  // ---- the lock is given up ----

  /** Someone is inside, or was killed. */
  ghost predicate Held(s: State, slot: Slot) {
    exists p :: p in s.builders && s.builders[p].slot == slot && (Inside(s.builders[p].pc) || s.builders[p].pc.Crashed?)
  }

  ghost predicate Orderly(s: State) { forall slot :: slot in s.locks ==> Held(s, slot) }

  /** The release of the lock fails. */
  predicate Abandons(s: State, e: Event) {
    e.Step? && e.pid in s.builders && s.builders[e.pid].pc.Release? && e.input == Error
  }

  predicate NoneAbandoned(s: State, events: seq<Event>)
    decreases |events|
  {
    events == [] || (!Abandons(s, events[0]) && NoneAbandoned(Apply(s, events[0]), events[1..]))
  }

  lemma StepOrderly(s: State, p: Pid, input: Input)
    requires Orderly(s) && p in s.builders && !Abandons(s, Step(p, input))
    ensures Orderly(Apply(s, Step(p, input)))
  {
    hide Apply, StepBuilder, Inside, At;
    StepSeen(s, p, input);
    var t, mine := Apply(s, Step(p, input)), s.builders[p].slot;
    forall slot | slot in t.locks ensures Held(t, slot) {
      AtIn(t.locks, slot);
      AtIn(s.locks, slot);
      if slot == mine && Inside(t.builders[p].pc) {
        assert t.builders[p].slot == slot;
      } else {
        assert slot in s.locks;
        var q :| q in s.builders && s.builders[q].slot == slot
                 && (Inside(s.builders[q].pc) || s.builders[q].pc.Crashed?);
        assert q in t.builders && t.builders[q].slot == slot;
      }
    }
  }

  lemma SameOrder(s: State, t: State)
    requires Orderly(s) && OnlyCrashes(s, t)
    ensures Orderly(t)
  {
    hide Inside;
    forall slot | slot in t.locks ensures Held(t, slot) {
      var q :| q in s.builders && s.builders[q].slot == slot
               && (Inside(s.builders[q].pc) || s.builders[q].pc.Crashed?);
      assert t.builders[q].slot == slot;
    }
  }

  lemma {:induction false} RunOrderly(s: State, events: seq<Event>)
    requires Orderly(s) && NoneAbandoned(s, events)
    ensures Orderly(Run(s, events))
    decreases |events|
  {
    hide Orderly, StepBuilder, Abandons;
    if events != [] {
      var t := Apply(s, events[0]);
      if events[0].Step? {
        if events[0].pid in s.builders { hide Apply; StepOrderly(s, events[0].pid, events[0].input); }
      } else {
        SameOrder(s, t);
      }
      RunOrderly(t, events[1..]);
    }
  }

  /** However calls interleave, fail, crash or steal, as long as no release fails: where there is a lock, a call is
      inside or was killed. When all calls for a slot have returned or failed, its lock is gone. */
  lemma NoLockLeft(s: State, events: seq<Event>, slot: Slot)
    requires Init(s) && NoneAbandoned(s, events)
    ensures var t := Run(s, events); slot in t.locks ==> Held(t, slot)
    ensures var t := Run(s, events);
            (forall p :: p in t.builders && t.builders[p].slot == slot ==>
               t.builders[p].pc.Returned? || t.builders[p].pc.Failed?) ==> slot !in t.locks
  {
    RunOrderly(s, events);
  }
}
