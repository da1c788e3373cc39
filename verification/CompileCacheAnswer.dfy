/** What a call of the compile cache answers when nobody disturbs it, whatever it finds. */
module CompileCacheAnswer {
  import opened Options
  import opened CompileCache
  import opened CompileCacheExclusion
  import opened CompileCacheLiveness

  // ---- what an undisturbed call found, and what it is to answer ----

  /** A call that began at time `began` and found the entry `start` and the lock `held`; the compiler writes `out`. */
  datatype Task = Task(
    key: Key, start: Option<Dir>, held: Option<Lock>, began: nat, before: Option<Bytes>, out: Bytes)

  /** The lock that was found is gone, or is older than 15 minutes by now. */
  predicate Free(k: Task, clock: nat) { k.held.None? || clock - k.held.value.mtime > 15 * 60_000 }

  /** Nobody gives up before 12 minutes are over. */
  predicate Patient(k: Task, deadline: nat) { k.began + 12 * 60_000 <= deadline }

  function Stored(key: Key, out: Bytes): Option<Dir> {
    Some(Dir(Some(File(out, true)), Some(Record(key, Sha256(out), |out|))))
  }

  function StoredBytes(entry: Option<Dir>): Option<Bytes> {
    if entry.Some? && entry.value.binary.Some? then Some(entry.value.binary.value.bytes) else None
  }

  /** The answer, and what stands at the key by then. */
  predicate Answered(k: Task, outcome: Outcome, clock: nat, entry: Option<Dir>, lock: Option<Lock>,
                     delivered: Option<Bytes>)
  {
    if Usable(k.key, k.start) then
      outcome == Hit && delivered == StoredBytes(k.start) && entry == k.start && lock == k.held
    else if outcome == Failed then
      && k.held.Some? && clock > k.began + 12 * 60_000
      && entry == k.start && lock == k.held && delivered == k.before
    else
      outcome == Miss && Free(k, clock) && delivered == Some(k.out) && entry == Stored(k.key, k.out) && lock == None
  }

  // ---- where it stands on the way there ----

  /** Part of the way through the check of an entry, with everything right so far. */
  predicate Checked(pc: Pc, key: Key, entry: Option<Dir>) {
    && (pc.StatBinary? || pc.ReadBinary? ==>
          entry.Some? && entry.value.record == Some(pc.record) && pc.record.key == key)
    && (pc.ReadBinary? ==>
          && entry.value.binary.Some? && entry.value.binary.value.executable
          && |entry.value.binary.value.bytes| == pc.record.size)
  }

  predicate CheckOnTrack(v: View, k: Task)
    requires Verifying(v.proc.pc)
  {
    && Checked(v.proc.pc, k.key, v.entry) && v.entry == k.start
    && match SiteOf(v.proc.pc)
       case Entry => v.lock == k.held
       case Waiting(deadline) => v.lock == k.held && k.held.Some? && Patient(k, deadline) && !Usable(k.key, k.start)
       case Locked => Free(k, v.clock) && !Usable(k.key, k.start)
  }

  predicate LockOnTrack(v: View, k: Task)
    requires Locking(v.proc.pc) && !v.proc.pc.Release?
  {
    && v.entry == k.start && !Usable(k.key, k.start)
    && match v.proc.pc
       case MakeRoot => v.lock == k.held
       case TryLock(deadline) => Patient(k, deadline) && (v.lock == k.held || (v.lock == None && Free(k, v.clock)))
       case StatLock(deadline) => Patient(k, deadline) && v.lock == k.held && k.held.Some?
       case JudgeLock(deadline, mtime) =>
         Patient(k, deadline) && v.lock == k.held && k.held.Some? && mtime == k.held.value.mtime
       case StealLock(deadline) => Patient(k, deadline) && v.lock == k.held && Free(k, v.clock)
  }

  predicate BuildOnTrack(v: View, k: Task) {
    && Free(k, v.clock) && !Usable(k.key, k.start)
    && match v.proc.pc
       case ClearEntry => true
       case MakeStage => v.entry == None
       case Compile => v.entry == None
       case ReadCandidate => v.entry == None && v.proc.stage == Some(Dir(Some(File(k.out, false)), None))
       case Chmod(bytes) =>
         v.entry == None && bytes == k.out && v.proc.stage == Some(Dir(Some(File(k.out, false)), None))
       case WriteRecord(bytes) =>
         v.entry == None && bytes == k.out && v.proc.stage == Some(Dir(Some(File(k.out, true)), None))
       case RenameStage(bytes) => v.entry == None && bytes == k.out && v.proc.stage == Stored(k.key, k.out)
       case _ => false
  }

  predicate PublishOnTrack(v: View, k: Task)
    requires v.proc.pc.Publish?
  {
    var pc := v.proc.pc;
    if Usable(k.key, k.start) then
      && pc.outcome == Hit && Some(pc.bytes) == StoredBytes(k.start) && v.entry == k.start
      && !pc.locked && v.lock == k.held
    else
      pc.outcome == Miss && pc.bytes == k.out && v.entry == Stored(k.key, k.out) && pc.locked && Free(k, v.clock)
  }

  /** Where a call stands that carries out `k` and met nobody since it began. */
  predicate OnTrack(v: View, delivered: Option<Bytes>, k: Task) {
    var pc := v.proc.pc;
    && v.proc.key == k.key && k.began <= v.clock
    && (!pc.Publish? ==> v.proc.tmp == None) && (!pc.Release? && !pc.Done? ==> delivered == k.before)
    && if Verifying(pc) then CheckOnTrack(v, k)
       else if pc.Release? then
         !Usable(k.key, k.start) && Answered(k, pc.outcome, v.clock, v.entry, None, delivered) && pc.outcome == Miss
       else if Locking(pc) then LockOnTrack(v, k)
       else if pc.Publish? then PublishOnTrack(v, k)
       else if pc.Done? then Answered(k, pc.outcome, v.clock, v.entry, v.lock, delivered)
       else BuildOnTrack(v, k)
  }

  function After(w: View, delivered: Option<Bytes>): Option<Bytes> {
    if w.delivered.Some? then w.delivered else delivered
  }

  /** The check goes on, accepts a usable entry, or answers null for one that is not usable. */
  lemma CheckDecides(v: View, out: Bytes)
    requires Verifying(v.proc.pc) && Checked(v.proc.pc, v.proc.key, v.entry)
    ensures var w, site := StepVerify(v, Answer(v, out)), SiteOf(v.proc.pc);
            || (Verifying(w.proc.pc) && w == Goto(v, w.proc.pc) && SiteOf(w.proc.pc) == site
                && Checked(w.proc.pc, v.proc.key, v.entry))
            || (&& Usable(v.proc.key, v.entry)
                && w == Goto(v, Publish(v.entry.value.binary.value.bytes, Hit, site == Locked)))
            || (!Usable(v.proc.key, v.entry) && w == Unverified(v, site))
  {
  }

  lemma StepCheck(v: View, delivered: Option<Bytes>, k: Task)
    requires OnTrack(v, delivered, k) && Verifying(v.proc.pc) && v.delivered == None
    ensures var w := StepVerify(v, Answer(v, k.out)); OnTrack(w, After(w, delivered), k)
  {
    hide StepVerify, Checked, Usable, Answer;
    CheckDecides(v, k.out);
    UsableStored(k.key, k.start);
  }

  lemma StepLocking(v: View, delivered: Option<Bytes>, k: Task)
    requires OnTrack(v, delivered, k) && Locking(v.proc.pc) && v.delivered == None
    ensures var w := StepLock(v, Answer(v, k.out)); OnTrack(w, After(w, delivered), k)
  {
  }

  lemma StepPublishing(v: View, delivered: Option<Bytes>, k: Task)
    requires OnTrack(v, delivered, k) && v.proc.pc.Publish? && v.delivered == None
    ensures var w := StepPublish(v, Answer(v, k.out)); OnTrack(w, After(w, delivered), k)
  {
    assert v.proc.pc.bytes[..|v.proc.pc.bytes|] == v.proc.pc.bytes;
  }

  lemma StepClearing(v: View, delivered: Option<Bytes>, k: Task)
    requires OnTrack(v, delivered, k) && Cleaning(v.proc.pc) && v.delivered == None
    ensures var w := StepClean(v, Answer(v, k.out)); OnTrack(w, After(w, delivered), k)
  {
  }

  lemma StepBuilding(v: View, delivered: Option<Bytes>, k: Task)
    requires OnTrack(v, delivered, k) && v.delivered == None
    requires !Verifying(v.proc.pc) && !Locking(v.proc.pc) && !v.proc.pc.Publish? && !Cleaning(v.proc.pc)
    ensures var w := StepBuild(v, Answer(v, k.out)); OnTrack(w, After(w, delivered), k)
  {
  }

  lemma StepOnTrack(v: View, delivered: Option<Bytes>, k: Task)
    requires OnTrack(v, delivered, k) && v.delivered == None
    ensures var w := StepCall(v, Answer(v, k.out)); OnTrack(w, After(w, delivered), k)
  {
    hide OnTrack, StepVerify, StepLock, StepPublish, StepClean, StepBuild, Answer;
    if Verifying(v.proc.pc) { StepCheck(v, delivered, k); }
    else if Locking(v.proc.pc) { StepLocking(v, delivered, k); }
    else if v.proc.pc.Publish? { StepPublishing(v, delivered, k); }
    else if Cleaning(v.proc.pc) { StepClearing(v, delivered, k); }
    else { StepBuilding(v, delivered, k); }
  }

  /** Time that passes changes nothing. */
  lemma TrackLater(v: View, clock: nat, delivered: Option<Bytes>, k: Task)
    requires OnTrack(v, delivered, k) && v.clock <= clock
    ensures OnTrack(Forget(v.(clock := clock)), delivered, k)
  {
  }

  lemma {:induction false} StaysOnTrack(s: State, p: Pid, times: seq<nat>, k: Task)
    requires p in s.procs && OnTrack(Look(s, p), At(s.delivered, p), k)
    ensures var t := Run(s, Turns(s, p, k.out, times));
            p in t.procs && OnTrack(Look(t, p), At(t.delivered, p), k) && Beside(s, t, p)
    decreases |times|
  {
    hide OnTrack, StepCall, Answer, At;
    if times != [] {
      var v := Look(s, p);
      var turn := Turn(p, Answer(v, k.out), if Sleeps(v) then NAP else 0, times[0]);
      var w, t := Woken(v, StepCall(v, Answer(v, k.out))), Run(s, turn);
      TurnIs(s, p, k.out, times[0]);
      StepOnTrack(v, At(s.delivered, p), k);
      StepGoesOn(v, Answer(v, k.out));
      TrackLater(StepCall(v, Answer(v, k.out)), w.clock + times[0], At(t.delivered, p), k);
      StaysOnTrack(t, p, times[1..], k);
      RunAppend(s, turn, Turns(t, p, k.out, times[1..]));
    }
  }

  predicate Starting(proc: Proc) { proc.pc == ReadRecord(Entry) && proc.tmp == None }

  function TaskOf(s: State, p: Pid, out: Bytes): Task
    requires p in s.procs
  {
    var key := s.procs[p].key;
    Task(key, At(s.entries, key), At(s.locks, key), s.clock, At(s.delivered, p), out)
  }

  /**
   * From any state of the system, a call that starts and is let run alone ends, and moves nobody else. If the entry it
   * finds is usable it says "hit" and delivers that entry's bytes, lock or no lock. If not: if there is no lock, or
   * once the lock is older than 15 minutes, it says "miss", delivers what the compiler wrote, stores it and leaves no
   * lock; else it fails, but not before 12 minutes are over, and changes nothing.
   */
  lemma CallAlone(s: State, p: Pid, out: Bytes, times: seq<nat>)
    requires p in s.procs && Starting(s.procs[p]) && |times| >= TURNS
    ensures var t, k := Run(s, Turns(s, p, out, times)), TaskOf(s, p, out);
            && p in t.procs && t.procs[p].pc.Done? && t.procs[p].key == k.key && Beside(s, t, p)
            && Answered(k, t.procs[p].pc.outcome, t.clock, At(t.entries, k.key), At(t.locks, k.key), At(t.delivered, p))
  {
    hide Run, Turns, Rank, Usable;
    StaysOnTrack(s, p, times, TaskOf(s, p, out));
    RankBounded(Look(s, p));
    ComesToAnEnd(s, p, out, times);
  }

  /** What is stored is usable, and its bytes are those delivered. */
  lemma StoredUsable(key: Key, out: Bytes)
    ensures Usable(key, Stored(key, out)) && StoredBytes(Stored(key, out)) == Some(out)
  {
  }

  /** Nobody else moves between two calls for a key, the first of which did not fail: the second says "hit" and delivers
      the same bytes. */
  lemma ThenHit(s: State, p: Pid, q: Pid, out: Bytes, other: Bytes, times: seq<nat>)
    requires p in s.procs && q in s.procs && p != q && s.procs[p].key == s.procs[q].key
    requires Starting(s.procs[p]) && Starting(s.procs[q]) && |times| >= TURNS
    ensures var t := Run(s, Turns(s, p, out, times));
            && p in t.procs && t.procs[p].pc.Done? && q in t.procs
            && var u := Run(t, Turns(t, q, other, times));
            t.procs[p].pc.outcome != Failed ==>
              && q in u.procs && u.procs[q].pc == Done(Hit)
              && At(u.delivered, q) == At(u.delivered, p) == At(t.delivered, p) && At(t.delivered, p).Some?
  {
    hide Run, Turns, At, Usable;
    CallAlone(s, p, out, times);
    var t := Run(s, Turns(s, p, out, times));
    CallAlone(t, q, other, times);
    StoredUsable(s.procs[p].key, out);
    UsableStored(s.procs[p].key, At(s.entries, s.procs[p].key));
  }

  lemma UsableStored(key: Key, entry: Option<Dir>)
    ensures Usable(key, entry) ==> StoredBytes(entry).Some?
  {
  }

  // ---- a call that waits ----

  /** Before the lock is taken, and not in the middle of a check. */
  predicate Waits(pc: Pc) {
    pc.ReadRecord? || pc.MakeRoot? || pc.TryLock? || pc.StatLock? || pc.JudgeLock? || pc.StealLock?
  }

  /** Where a call stands that will deliver the usable entry `start`. */
  predicate Hitting(v: View, delivered: Option<Bytes>, start: Option<Dir>) {
    var pc := v.proc.pc;
    && v.entry == start && Usable(v.proc.key, start) && Checked(pc, v.proc.key, start)
    && (!pc.Publish? ==> v.proc.tmp == None)
    && match pc
       case Publish(bytes, outcome, _) => outcome == Hit && Some(bytes) == StoredBytes(start)
       case Release(outcome) => outcome == Hit && delivered == StoredBytes(start)
       case Done(outcome) => outcome == Hit && delivered == StoredBytes(start)
       case _ => Waits(pc) || pc.StatBinary? || pc.ReadBinary?
  }

  lemma CheckHits(v: View, delivered: Option<Bytes>, start: Option<Dir>, out: Bytes)
    requires Hitting(v, delivered, start) && Verifying(v.proc.pc) && v.delivered == None
    ensures var w := StepVerify(v, Answer(v, out)); Hitting(w, After(w, delivered), start)
  {
  }

  lemma LockHits(v: View, delivered: Option<Bytes>, start: Option<Dir>, out: Bytes)
    requires Hitting(v, delivered, start) && Locking(v.proc.pc) && v.delivered == None
    ensures var w := StepLock(v, Answer(v, out)); Hitting(w, After(w, delivered), start)
  {
  }

  lemma PublishHits(v: View, delivered: Option<Bytes>, start: Option<Dir>, out: Bytes)
    requires Hitting(v, delivered, start) && v.proc.pc.Publish? && v.delivered == None
    ensures var w := StepPublish(v, Answer(v, out)); Hitting(w, After(w, delivered), start)
  {
    assert v.proc.pc.bytes[..|v.proc.pc.bytes|] == v.proc.pc.bytes;
  }

  lemma StepHits(v: View, delivered: Option<Bytes>, start: Option<Dir>, out: Bytes)
    requires Hitting(v, delivered, start) && v.delivered == None
    ensures var w := StepCall(v, Answer(v, out)); Hitting(w, After(w, delivered), start)
  {
    hide Usable, Answer, StepVerify, StepLock, StepPublish, StepClean;
    if Verifying(v.proc.pc) { CheckHits(v, delivered, start, out); }
    else if Locking(v.proc.pc) { LockHits(v, delivered, start, out); }
    else if v.proc.pc.Publish? { PublishHits(v, delivered, start, out); }
    else { assert v.proc.pc.Done?; }
  }

  lemma HittingForgets(v: View, clock: nat, delivered: Option<Bytes>, start: Option<Dir>)
    ensures Hitting(Forget(v.(clock := clock)), delivered, start) <==> Hitting(v, delivered, start)
  {
  }

  lemma {:induction false} StaysHitting(s: State, p: Pid, out: Bytes, times: seq<nat>, start: Option<Dir>)
    requires p in s.procs && Hitting(Look(s, p), At(s.delivered, p), start)
    ensures var t := Run(s, Turns(s, p, out, times));
            p in t.procs && Hitting(Look(t, p), At(t.delivered, p), start) && t.procs[p].key == s.procs[p].key
    decreases |times|
  {
    hide Hitting, StepCall, Answer, At;
    if times != [] {
      var v := Look(s, p);
      var turn := Turn(p, Answer(v, out), if Sleeps(v) then NAP else 0, times[0]);
      var w, t := Woken(v, StepCall(v, Answer(v, out))), Run(s, turn);
      TurnIs(s, p, out, times[0]);
      StepHits(v, At(s.delivered, p), start, out);
      StepGoesOn(v, Answer(v, out));
      HittingForgets(StepCall(v, Answer(v, out)), w.clock + times[0], At(t.delivered, p), start);
      StaysHitting(t, p, out, times[1..], start);
      RunAppend(s, turn, Turns(t, p, out, times[1..]));
    }
  }

  /** A call that waits for the lock, however late it is, and whoever holds it: once the entry is usable it says "hit"
      and delivers it. */
  lemma WaiterHits(s: State, events: seq<Event>, p: Pid, out: Bytes, times: seq<nat>)
    requires Init(s) && p in Run(s, events).procs && |times| >= TURNS
    requires var t := Run(s, events);
             && Waits(t.procs[p].pc) && t.procs[p].tmp == None
             && Usable(t.procs[p].key, At(t.entries, t.procs[p].key))
    ensures var t := Run(s, events);
            var u, key := Run(t, Turns(t, p, out, times)), t.procs[p].key;
            && p in u.procs && u.procs[p].pc == Done(Hit) && u.procs[p].key == key
            && At(u.delivered, p) == StoredBytes(At(t.entries, key))
            && At(u.entries, u.procs[p].key) == At(t.entries, key)
  {
    hide Run, Turns, Rank, Usable;
    var t := Run(s, events);
    WaiterHitting(t, p);
    StaysHitting(t, p, out, times, At(t.entries, t.procs[p].key));
    EveryCallAnswers(s, events, p, out, times);
  }

  lemma WaiterHitting(s: State, p: Pid)
    requires p in s.procs && Waits(s.procs[p].pc) && s.procs[p].tmp == None
    requires Usable(s.procs[p].key, At(s.entries, s.procs[p].key))
    ensures Hitting(Look(s, p), At(s.delivered, p), At(s.entries, s.procs[p].key))
  {
  }

  // ---- a call that is inside, however it ends ----

  /** Inside, or at the end with no lock left; and a call that was failing has failed. */
  predicate Leaving(v: View, failing: bool) {
    && (Critical(v.proc.pc) || (v.proc.pc.Done? && v.lock == None))
    && (failing ==> Failing(v.proc.pc))
  }

  lemma CheckLeaves(v: View, out: Bytes, failing: bool)
    requires Leaving(v, failing) && Verifying(v.proc.pc)
    ensures Leaving(StepVerify(v, Answer(v, out)), failing)
  {
  }

  lemma LockLeaves(v: View, out: Bytes, failing: bool)
    requires Leaving(v, failing) && Locking(v.proc.pc)
    ensures Leaving(StepLock(v, Answer(v, out)), failing)
  {
  }

  lemma PublishLeaves(v: View, out: Bytes, failing: bool)
    requires Leaving(v, failing) && v.proc.pc.Publish?
    ensures Leaving(StepPublish(v, Answer(v, out)), failing)
  {
  }

  lemma CleanLeaves(v: View, out: Bytes, failing: bool)
    requires Leaving(v, failing) && Cleaning(v.proc.pc)
    ensures Leaving(StepClean(v, Answer(v, out)), failing)
  {
  }

  lemma BuildLeaves(v: View, out: Bytes, failing: bool)
    requires Leaving(v, failing)
    requires !Verifying(v.proc.pc) && !Locking(v.proc.pc) && !v.proc.pc.Publish? && !Cleaning(v.proc.pc)
    ensures Leaving(StepBuild(v, Answer(v, out)), failing)
  {
  }

  lemma StepLeaves(v: View, out: Bytes, failing: bool)
    requires Leaving(v, failing)
    ensures Leaving(StepCall(v, Answer(v, out)), failing)
  {
    hide Leaving, Answer, StepVerify, StepLock, StepPublish, StepClean, StepBuild;
    if Verifying(v.proc.pc) { CheckLeaves(v, out, failing); }
    else if Locking(v.proc.pc) { LockLeaves(v, out, failing); }
    else if v.proc.pc.Publish? { PublishLeaves(v, out, failing); }
    else if Cleaning(v.proc.pc) { CleanLeaves(v, out, failing); }
    else { BuildLeaves(v, out, failing); }
  }

  lemma LeavingForgets(v: View, clock: nat, failing: bool)
    ensures Leaving(Forget(v.(clock := clock)), failing) <==> Leaving(v, failing)
  {
  }

  lemma {:induction false} StaysLeaving(s: State, p: Pid, out: Bytes, times: seq<nat>, failing: bool)
    requires p in s.procs && Leaving(Look(s, p), failing)
    ensures var t := Run(s, Turns(s, p, out, times));
            p in t.procs && Leaving(Look(t, p), failing) && t.procs[p].key == s.procs[p].key && Beside(s, t, p)
    decreases |times|
  {
    hide Leaving, StepCall, Answer, At;
    if times != [] {
      var v := Look(s, p);
      var turn := Turn(p, Answer(v, out), if Sleeps(v) then NAP else 0, times[0]);
      var w, t := Woken(v, StepCall(v, Answer(v, out))), Run(s, turn);
      TurnIs(s, p, out, times[0]);
      StepLeaves(v, out, failing);
      StepGoesOn(v, Answer(v, out));
      LeavingForgets(StepCall(v, Answer(v, out)), w.clock + times[0], failing);
      StaysLeaving(t, p, out, times[1..], failing);
      RunAppend(s, turn, Turns(t, p, out, times[1..]));
    }
  }

  /** From any state: a call that is inside the lock, on its way to an answer or failing, leaves no lock when it is let
      run alone. */
  lemma InsideLeavesNoLock(s: State, p: Pid, out: Bytes, times: seq<nat>)
    requires p in s.procs && Critical(s.procs[p].pc) && |times| >= TURNS
    ensures var t := Run(s, Turns(s, p, out, times));
            && p in t.procs && t.procs[p].pc.Done? && s.procs[p].key !in t.locks && Beside(s, t, p)
            && (Failing(s.procs[p].pc) ==> t.procs[p].pc == Done(Failed))
  {
    hide Run, Turns, Rank;
    StaysLeaving(s, p, out, times, Failing(s.procs[p].pc));
    CriticalInTime(Look(s, p));
    RankBounded(Look(s, p));
    ComesToAnEnd(s, p, out, times);
    AtIn(Run(s, Turns(s, p, out, times)).locks, s.procs[p].key);
  }

  lemma CriticalInTime(v: View)
    requires Critical(v.proc.pc)
    ensures InTime(v.proc.pc, v.clock) && !v.proc.pc.Crashed?
  {
  }

  /** A compile fails: the call ends with an error, and the next one for the key says "hit" or "miss". */
  lemma AfterFailedCompile(s: State, p: Pid, q: Pid, out: Bytes, times: seq<nat>)
    requires p in s.procs && q in s.procs && p != q && s.procs[p].key == s.procs[q].key
    requires s.procs[p].pc.Compile? && Starting(s.procs[q]) && |times| >= TURNS
    ensures var failed := Apply(s, Step(p, Error));
            && p in failed.procs
            && var t := Run(failed, Turns(failed, p, out, times));
            && p in t.procs && t.procs[p].pc == Done(Failed) && s.procs[p].key !in t.locks && q in t.procs
            && var u := Run(t, Turns(t, q, out, times));
            && q in u.procs && u.procs[q].pc.Done? && u.procs[q].pc.outcome != Failed
            && s.procs[p].key !in u.locks
  {
    hide Run, Turns, Usable;
    var failed, key := Apply(s, Step(p, Error)), s.procs[p].key;
    CompileFails(s, p);
    InsideLeavesNoLock(failed, p, out, times);
    var t := Run(failed, Turns(failed, p, out, times));
    AtIn(t.locks, key);
    CallAlone(t, q, out, times);
    AtIn(Run(t, Turns(t, q, out, times)).locks, key);
  }

  lemma CompileFails(s: State, p: Pid)
    requires p in s.procs && s.procs[p].pc.Compile?
    ensures var t := Apply(s, Step(p, Error));
            && p in t.procs && t.procs[p].key == s.procs[p].key
            && Critical(t.procs[p].pc) && Failing(t.procs[p].pc)
            && forall q :: q in s.procs && q != p ==> q in t.procs && t.procs[q] == s.procs[q]
  {
  }

  // ---- nobody gives up early ----

  /** In the waiting loop. */
  predicate InLoop(pc: Pc) {
    pc.TryLock? || pc.StatLock? || pc.JudgeLock? || pc.StealLock? || (Verifying(pc) && SiteOf(pc).Waiting?)
  }

  function DeadlineOf(pc: Pc): nat
    requires InLoop(pc)
  {
    if Verifying(pc) then SiteOf(pc).deadline else pc.deadline
  }

  /** Its deadline is at least 12 minutes after `began`. */
  predicate LateEnough(pc: Pc, began: nat) { InLoop(pc) ==> began + 12 * 60_000 <= DeadlineOf(pc) }

  ghost predicate Waits12(v: View, input: Input, w: View, began: nat) {
    && LateEnough(w.proc.pc, began)
    && (InLoop(v.proc.pc) && w.proc.pc == Done(Failed) ==>
          v.clock > began + 12 * 60_000 || (input == Error && (v.proc.pc.TryLock? || v.proc.pc.StealLock?)))
  }

  lemma VerifyLate(v: View, input: Input, began: nat)
    requires Verifying(v.proc.pc) && LateEnough(v.proc.pc, began) && began <= v.clock
    ensures Waits12(v, input, StepVerify(v, input), began)
  {
  }

  lemma LockLate(v: View, input: Input, began: nat)
    requires Locking(v.proc.pc) && LateEnough(v.proc.pc, began) && began <= v.clock
    ensures Waits12(v, input, StepLock(v, input), began)
  {
  }

  lemma OtherLate(v: View, input: Input, began: nat)
    requires !Verifying(v.proc.pc) && !Locking(v.proc.pc)
    ensures Waits12(v, input, StepCall(v, input), began)
  {
    hide StepVerify, StepLock;
  }

  lemma StepLate(v: View, input: Input, began: nat)
    requires LateEnough(v.proc.pc, began) && began <= v.clock
    ensures Waits12(v, input, StepCall(v, input), began)
  {
    hide Waits12, LateEnough, StepVerify, StepLock, StepPublish, StepClean, StepBuild;
    if Verifying(v.proc.pc) { VerifyLate(v, input, began); }
    else if Locking(v.proc.pc) { LockLate(v, input, began); }
    else { OtherLate(v, input, began); }
  }

  lemma ApplyLate(s: State, e: Event, p: Pid, began: nat)
    requires p in s.procs && LateEnough(s.procs[p].pc, began) && began <= s.clock
    ensures var t := Apply(s, e);
            && p in t.procs && LateEnough(t.procs[p].pc, began) && began <= t.clock
            && (InLoop(s.procs[p].pc) && t.procs[p].pc == Done(Failed) ==>
                  || s.clock > began + 12 * 60_000
                  || (e == Step(p, Error) && (s.procs[p].pc.TryLock? || s.procs[p].pc.StealLock?)))
  {
    hide StepCall, At, With;
    if e.Step? && e.pid in s.procs {
      StepGoesOn(Look(s, e.pid), e.input);
      if e.pid == p { StepLate(Look(s, p), e.input, began); }
    }
  }

  lemma {:induction false} RunLate(s: State, events: seq<Event>, p: Pid, began: nat)
    requires p in s.procs && LateEnough(s.procs[p].pc, began) && began <= s.clock
    ensures var t := Run(s, events); p in t.procs && LateEnough(t.procs[p].pc, began) && began <= t.clock
    decreases |events|
  {
    hide Apply, LateEnough;
    if events != [] {
      ApplyLate(s, events[0], p, began);
      RunLate(Apply(s, events[0]), events[1..], p, began);
    }
  }

  /** However locks and entries come and go: a call that waits for the lock gives up only when its own system call on
      the lock fails, or more than 12 minutes have gone by since any time at which it was not waiting yet. */
  lemma GivesUpLate(s: State, events: seq<Event>, e: Event, p: Pid)
    requires p in s.procs && !InLoop(s.procs[p].pc)
    ensures var t := Run(s, events);
            && p in t.procs && p in Apply(t, e).procs
            && (InLoop(t.procs[p].pc) && Apply(t, e).procs[p].pc == Done(Failed) ==>
                  || t.clock > s.clock + 12 * 60_000
                  || (e == Step(p, Error) && (t.procs[p].pc.TryLock? || t.procs[p].pc.StealLock?)))
  {
    hide Run, Apply;
    RunLate(s, events, p, s.clock);
    ApplyLate(Run(s, events), e, p, s.clock);
  }
}
