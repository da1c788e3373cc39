/** What calls of the compile cache leave behind: no lock and no staging directory, unless a removal fails. */
module CompileCacheLeftovers {
  import opened Options
  import opened CompileCache
  import opened CompileCacheExclusion

  predicate Staging(pc: Pc) {
    pc.Compile? || pc.ReadCandidate? || pc.Chmod? || pc.WriteRecord? || pc.RenameStage? || pc.RemoveStage?
  }

  /** A call has a staging directory only while it fills it or removes it, and a temporary file only while it writes
      one. */
  predicate Tidy(proc: Proc) {
    !proc.pc.Crashed? ==> (proc.stage.Some? <==> Staging(proc.pc)) && (proc.tmp.Some? ==> proc.pc.Publish?)
  }

  /** The lock belongs to a call that is inside, or that was killed there. */
  predicate Answered(s: State, key: Key)
    requires key in s.locks
  {
    var p := s.locks[key].owner;
    p in s.procs && s.procs[p].key == key && (Critical(s.procs[p].pc) || s.procs[p].pc.Crashed?)
  }

  ghost predicate Orderly(s: State) {
    && (forall p :: p in s.procs ==> Tidy(s.procs[p]))
    && (forall key :: key in s.locks ==> Answered(s, key))
  }

  /** A removal at the end of a call fails: that of its staging directory, or that of the lock while it is its own. */
  predicate Abandons(s: State, e: Event) {
    && e.Step? && e.pid in s.procs && e.input == Error
    && var proc := s.procs[e.pid];
    proc.pc.RemoveStage? || (proc.pc.Release? && proc.key in s.locks && s.locks[proc.key].owner == e.pid)
  }

  /** What a step does to the lock: leave it to a call that stays inside, take it, or remove it. */
  predicate Keeps(v: View, input: Input, w: View) {
    && w.pid == v.pid && w.proc.key == v.proc.key
    && (Tidy(v.proc) && !(v.proc.pc.RemoveStage? && input == Error) ==> Tidy(w.proc))
    && (|| w.lock.None?
        || (w.lock == Some(Lock(v.clock, v.pid)) && Critical(w.proc.pc))
        || (&& w.lock == v.lock
            && (Critical(v.proc.pc) || v.proc.pc.Crashed? ==>
                  || Critical(w.proc.pc) || w.proc.pc.Crashed?
                  || ((v.proc.pc.RemoveStage? || v.proc.pc.Release?) && input == Error))))
  }

  lemma VerifyKeeps(v: View, input: Input)
    requires Verifying(v.proc.pc)
    ensures Keeps(v, input, StepVerify(v, input))
  {
  }

  lemma LockKeeps(v: View, input: Input)
    requires Locking(v.proc.pc)
    ensures Keeps(v, input, StepLock(v, input))
  {
  }

  lemma PublishKeeps(v: View, input: Input)
    requires v.proc.pc.Publish?
    ensures Keeps(v, input, StepPublish(v, input))
  {
  }

  lemma CleanKeeps(v: View, input: Input)
    requires Cleaning(v.proc.pc)
    ensures Keeps(v, input, StepClean(v, input))
  {
  }

  lemma BuildKeeps(v: View, input: Input)
    requires !Verifying(v.proc.pc) && !Locking(v.proc.pc) && !v.proc.pc.Publish? && !Cleaning(v.proc.pc)
    ensures Keeps(v, input, StepBuild(v, input))
  {
  }

  lemma StepKeeps(v: View, input: Input)
    ensures Keeps(v, input, StepCall(v, input))
  {
    hide Keeps, StepVerify, StepLock, StepPublish, StepClean, StepBuild;
    if Verifying(v.proc.pc) { VerifyKeeps(v, input); }
    else if Locking(v.proc.pc) { LockKeeps(v, input); }
    else if v.proc.pc.Publish? { PublishKeeps(v, input); }
    else if Cleaning(v.proc.pc) { CleanKeeps(v, input); }
    else { BuildKeeps(v, input); }
  }

  /** A step that abandons something ends the call with it. */
  lemma AbandonEnds(v: View)
    requires v.proc.pc.RemoveStage? || v.proc.pc.Release?
    ensures StepCall(v, Error) == v.(proc := v.proc.(pc := Done(Failed)))
  {
  }

  lemma OutsideOf(proc: Proc)
    ensures proc.pc.Done? ==> !Critical(proc.pc) && (Tidy(proc) ==> proc.stage.None? && proc.tmp.None?)
    ensures proc.pc.RemoveStage? && Tidy(proc) ==> proc.stage.Some?
    ensures proc.pc.RemoveStage? || proc.pc.Release? ==> Critical(proc.pc)
  {
  }

  lemma StepOrderly(s: State, p: Pid, input: Input)
    requires Orderly(s) && p in s.procs
    ensures Orderly(Apply(s, Step(p, input))) <==> !Abandons(s, Step(p, input))
  {
    hide StepCall, Critical, Tidy, With, At;
    var v, t := Look(s, p), Apply(s, Step(p, input));
    var w, key := StepCall(v, input), v.proc.key;
    StepKeeps(v, input);
    AtIn(s.locks, key);
    forall k ensures At(t.locks, k) == if k == key then w.lock else At(s.locks, k) { WithAt(s.locks, key, w.lock, k); }
    OutsideOf(v.proc);
    if Abandons(s, Step(p, input)) {
      AbandonEnds(v);
      OutsideOf(w.proc);
      AtIn(t.locks, key);
      if v.proc.pc.Release? { assert !Answered(t, key); } else { assert !Tidy(t.procs[p]); }
    } else {
      forall k | k in t.locks ensures Answered(t, k) {
        AtIn(t.locks, k);
        AtIn(s.locks, k);
        if k != key { assert Answered(s, k); } else if w.lock == v.lock { assert Answered(s, key); }
      }
    }
  }

  /** One step, exactly: order is kept unless the step abandons something. */
  lemma OrderlyExact(s: State, e: Event)
    requires Orderly(s)
    ensures Orderly(Apply(s, e)) <==> !Abandons(s, e)
  {
    match e
    case Step(p, input) => if p in s.procs { hide Apply; StepOrderly(s, p, input); }
    case Crash(p) =>
      hide Critical;
      var t := Apply(s, e);
      forall key | key in t.locks ensures Answered(t, key) { assert Answered(s, key); }
    case Tick(_) => SameOrder(s, Apply(s, e));
    case Corrupt(_, _) => SameOrder(s, Apply(s, e));
  }

  lemma SameOrder(s: State, t: State)
    requires Orderly(s) && t.procs == s.procs && t.locks == s.locks
    ensures Orderly(t)
  {
    forall key | key in t.locks ensures Answered(t, key) { assert Answered(s, key); }
  }

  predicate NoneAbandoned(s: State, events: seq<Event>)
    decreases |events|
  {
    events == [] || (!Abandons(s, events[0]) && NoneAbandoned(Apply(s, events[0]), events[1..]))
  }

  ghost predicate OrderlyThroughout(s: State, events: seq<Event>)
    decreases |events|
  {
    Orderly(s) && (events == [] || OrderlyThroughout(Apply(s, events[0]), events[1..]))
  }

  lemma {:induction false} RunOrderly(s: State, events: seq<Event>)
    requires Orderly(s)
    ensures OrderlyThroughout(s, events) <==> NoneAbandoned(s, events)
    ensures NoneAbandoned(s, events) ==> Orderly(Run(s, events))
    decreases |events|
  {
    hide Orderly, Apply, Abandons;
    if events != [] {
      OrderlyExact(s, events[0]);
      if !Abandons(s, events[0]) { RunOrderly(Apply(s, events[0]), events[1..]); }
    }
  }

  /**
   * However calls interleave, crash, fail or steal, as long as no call fails to remove its own staging directory or its
   * own lock: a call that has ended, with an answer or with an error, has left no lock, no staging directory and no
   * temporary file behind, and every lock there is belongs to a call that is inside or was killed there.
   */
  lemma NothingLeft(s: State, events: seq<Event>)
    requires Init(s) && NoneAbandoned(s, events)
    ensures var t := Run(s, events);
            && (forall p :: p in t.procs && t.procs[p].pc.Done? ==>
                  t.procs[p].stage == None && t.procs[p].tmp == None
                  && forall key :: key in t.locks ==> t.locks[key].owner != p)
            && (forall key :: key in t.locks ==> Answered(t, key))
  {
    hide Run, NoneAbandoned, Critical;
    RunOrderly(s, events);
    var t := Run(s, events);
    forall p | p in t.procs && t.procs[p].pc.Done?
      ensures t.procs[p].stage == None && t.procs[p].tmp == None
      ensures forall key :: key in t.locks ==> t.locks[key].owner != p
    {
      OutsideOf(t.procs[p]);
      forall key | key in t.locks ensures t.locks[key].owner != p { assert Answered(t, key); }
    }
  }
}
