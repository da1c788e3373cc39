/** What a call of the SQLite cache comes to when nobody disturbs it, whatever it finds. */
module SqliteAnswer {
  import opened Options
  import opened SqlitePublish
  import opened SqliteLiveness

  /** How the world answers when nothing fails, the archive is the one named, and the compiler or unzip writes `out`. */
  function Answer(b: Builder, out: Bytes): Input {
    match b.pc
    case Compile => Output(out)
    case Download => if b.recipe.Source? then Output(b.recipe.archive.preimage) else Ok
    case Unpack(_) => Output(out)
    case _ => Ok
  }

  /** Only call `p` moves, every step of it goes well, and time goes by. */
  predicate Undisturbed(s: State, p: Pid, out: Bytes, events: seq<Event>)
    decreases |events|
  {
    events == []
    || (&& p in s.builders && (events[0].Tick? || events[0] == Step(p, Answer(s.builders[p], out)))
        && Undisturbed(Apply(s, events[0]), p, out, events[1..]))
  }

  /** A call for `recipe` that began at time `began` and found these files, this lock and this source file; the compiler
      or unzip writes `out`. */
  datatype Task = Task(
    slot: Slot, recipe: Recipe, source: Option<Bytes>, payload: Option<Bytes>, manifest: Option<Manifest>,
    held: Option<nat>, began: nat, before: set<(Recipe, Bytes)>, out: Bytes)

  /** The lock that was found is gone, or is older than 5 minutes by now. */
  predicate Free(k: Task, clock: nat) { k.held.None? || clock - k.held.value > 5 * 60_000 }

  /** Nobody gives up before 30 seconds are over. */
  predicate Patient(k: Task, deadline: nat) { k.began + 30_000 <= deadline }

  predicate Fresh(k: Task) { !Valid(k.payload, k.manifest, k.recipe) }

  /** What the output of the call is really made from. */
  function From(k: Task): Recipe {
    if k.recipe.Object? && k.source.Some? then k.recipe.(source := Sha256(k.source.value)) else k.recipe
  }

  /** The end of the call, and what it leaves. */
  predicate Ended(k: Task, b: Builder, clock: nat, payload: Option<Bytes>, manifest: Option<Manifest>,
                  lock: Option<nat>, produced: set<(Recipe, Bytes)>)
  {
    if !Fresh(k) then
      && b.pc.Returned? && b.accepted == k.payload
      && payload == k.payload && manifest == k.manifest && lock == k.held && produced == k.before
    else if b.pc.Failed? then
      && k.held.Some? && clock > k.began + 30_000
      && payload == k.payload && manifest == k.manifest && lock == k.held && produced == k.before
    else
      && b.pc.Returned? && b.accepted == Some(k.out) && Free(k, clock)
      && payload == Some(k.out) && manifest == Some(Manifest(k.recipe, Sha256(k.out))) && lock == None
      && produced == k.before + {(From(k), k.out)}
  }

  // ---- where it stands on the way there ----

  predicate CheckOnTrack(v: View, k: Task)
    requires Checking(v.builder.pc)
  {
    && (if v.builder.pc.locked then Fresh(k) && Free(k, v.clock) else v.lock == k.held)
    && (v.builder.pc.ReadPayload? ==>
          k.manifest == Some(v.builder.pc.manifest) && v.builder.pc.manifest.recipe == k.recipe)
  }

  predicate LockOnTrack(v: View, k: Task)
    requires Locking(v.builder.pc) && !v.builder.pc.Release?
  {
    && Fresh(k)
    && match v.builder.pc
       case MakeRoot => v.lock == k.held
       case TryLock(deadline) => Patient(k, deadline) && (v.lock == k.held || (v.lock == None && Free(k, v.clock)))
       case StatLock(deadline) => Patient(k, deadline) && v.lock == k.held && k.held.Some?
       case JudgeLock(deadline, mtime) => Patient(k, deadline) && v.lock == k.held == Some(mtime)
       case StealLock(deadline) => Patient(k, deadline) && v.lock == k.held && Free(k, v.clock)
       case Sleep(deadline, until) =>
         && Patient(k, deadline) && k.began + 25 <= until
         && (|| (v.lock == None && Free(k, v.clock))
             || (v.lock == k.held && k.held.Some? && until - 25 - k.held.value <= 5 * 60_000))
  }

  /** Before the first rename. */
  predicate Making(pc: Pc) {
    pc.Compile? || pc.Download? || pc.Unpack? || pc.DigestStage? || pc.WriteManifest? || pc.RenamePayload?
  }

  predicate MakeOnTrack(v: View, k: Task)
    requires Making(v.builder.pc)
  {
    && Fresh(k) && Free(k, v.clock)
    && match v.builder.pc
       case Compile => k.recipe.Object? && k.source.Some?
       case Download => k.recipe.Source?
       case Unpack(archive) => k.recipe == Source(Sha256(archive))
       case DigestStage(bytes) => bytes == k.out
       case WriteManifest(bytes, hash) => bytes == k.out && hash == Sha256(k.out)
       case RenamePayload(bytes, manifest) => bytes == k.out && manifest == Manifest(k.recipe, Sha256(k.out))
  }

  predicate PublishOnTrack(v: View, k: Task) {
    var full := Manifest(k.recipe, Sha256(k.out));
    && Fresh(k) && Free(k, v.clock) && v.payload == Some(k.out)
    && match v.builder.pc
       case RenameManifest(bytes, manifest) => bytes == k.out && manifest == full
       case RemoveStage(ok) => ok && v.manifest == Some(full) && v.builder.accepted == Some(k.out)
       case Release(ok) => ok && v.manifest == Some(full) && v.builder.accepted == Some(k.out)
       case _ => false
  }

  /** The output is made. */
  predicate Made(pc: Pc) {
    || pc.DigestStage? || pc.WriteManifest? || pc.RenamePayload? || pc.RenameManifest? || pc.RemoveStage?
    || pc.Release?
  }

  /** Where a call stands that carries out `k` and met nobody since it began. */
  predicate OnTrack(v: View, produced: set<(Recipe, Bytes)>, k: Task) {
    var pc := v.builder.pc;
    && v.builder.slot == k.slot && k.began <= v.clock && (pc.DigestSource? || v.builder.recipe == k.recipe)
    && (k.slot == SOURCE ==> k.source == k.payload)
    && if pc.Returned? || pc.Failed? then Ended(k, v.builder, v.clock, v.payload, v.manifest, v.lock, produced)
       else
         && produced == (if Made(pc) then k.before + {(From(k), k.out)} else k.before)
         && if pc.RenameManifest? || pc.RemoveStage? || pc.Release? then PublishOnTrack(v, k)
            else
              && v.payload == k.payload && v.manifest == k.manifest && v.source == k.source
              && if pc.DigestSource? then
                   v.lock == k.held && v.builder.recipe.Object? && k.source.Some?
                   && k.recipe == v.builder.recipe.(source := Sha256(k.source.value))
                 else if Checking(pc) then (k.recipe.Object? ==> k.source.Some?) && CheckOnTrack(v, k)
                 else if Locking(pc) then (k.recipe.Object? ==> k.source.Some?) && LockOnTrack(v, k)
                 else Making(pc) && MakeOnTrack(v, k)
  }

  function More(w: View, produced: set<(Recipe, Bytes)>): set<(Recipe, Bytes)> {
    if w.made.Some? then produced + {w.made.value} else produced
  }

  lemma DigestStays(v: View, produced: set<(Recipe, Bytes)>, k: Task)
    requires OnTrack(v, produced, k) && v.builder.pc.DigestSource? && v.made.None?
    ensures var w := StepDigest(v, Answer(v.builder, k.out)); OnTrack(w, More(w, produced), k)
  {
  }

  /** The check passes exactly for a valid pair of files. */
  lemma CheckDecides(v: View, k: Task, out: Bytes)
    requires Checking(v.builder.pc) && CheckOnTrack(v, k) && v.payload == k.payload && v.manifest == k.manifest
    requires v.builder.recipe == k.recipe
    ensures var w, locked := StepCheck(v, Answer(v.builder, out)), v.builder.pc.locked;
            || (&& v.builder.pc.ReadManifest? && k.manifest.Some? && k.manifest.value.recipe == k.recipe
                && w == Goto(v, ReadPayload(locked, k.manifest.value)))
            || (Fresh(k) && w == Invalid(v, locked))
            || (&& !Fresh(k) && !locked && w.builder.pc.Returned? && w.builder.accepted == k.payload
                && w == v.(builder := v.builder.(pc := Returned, accepted := k.payload)))
  {
  }

  lemma CheckStays(v: View, produced: set<(Recipe, Bytes)>, k: Task)
    requires OnTrack(v, produced, k) && Checking(v.builder.pc) && v.made.None?
    ensures var w := StepCheck(v, Answer(v.builder, k.out)); OnTrack(w, More(w, produced), k)
  {
    hide StepCheck, Answer, Valid;
    CheckDecides(v, k, k.out);
  }

  lemma ReleaseStays(v: View, produced: set<(Recipe, Bytes)>, k: Task)
    requires OnTrack(v, produced, k) && v.builder.pc.Release? && v.made.None?
    ensures var w := StepLock(v, Answer(v.builder, k.out)); OnTrack(w, More(w, produced), k)
  {
    hide Valid, LockOnTrack, CheckOnTrack, MakeOnTrack;
  }

  lemma LockStays(v: View, produced: set<(Recipe, Bytes)>, k: Task)
    requires OnTrack(v, produced, k) && Locking(v.builder.pc) && !v.builder.pc.Release? && v.made.None?
    ensures var w := StepLock(v, Answer(v.builder, k.out)); OnTrack(w, More(w, produced), k)
  {
    hide Fresh, MakeOnTrack, PublishOnTrack;
  }

  lemma MakeStays(v: View, produced: set<(Recipe, Bytes)>, k: Task)
    requires OnTrack(v, produced, k) && v.made.None?
    requires v.builder.pc.Compile? || v.builder.pc.Download? || v.builder.pc.Unpack?
    ensures var w := StepMake(v, Answer(v.builder, k.out)); OnTrack(w, More(w, produced), k)
  {
    hide Fresh, Ended, LockOnTrack, PublishOnTrack, CheckOnTrack, Free;
  }

  lemma StageStays(v: View, produced: set<(Recipe, Bytes)>, k: Task)
    requires OnTrack(v, produced, k) && v.made.None? && (v.builder.pc.DigestStage? || v.builder.pc.WriteManifest?)
    ensures var w := StepMake(v, Answer(v.builder, k.out)); OnTrack(w, More(w, produced), k)
  {
    hide Fresh, Ended, LockOnTrack, PublishOnTrack, CheckOnTrack, From, Free;
  }

  lemma PublishStays(v: View, produced: set<(Recipe, Bytes)>, k: Task)
    requires OnTrack(v, produced, k) && v.made.None?
    requires v.builder.pc.RenamePayload? || v.builder.pc.RenameManifest? || v.builder.pc.RemoveStage?
    ensures var w := StepMake(v, Answer(v.builder, k.out)); OnTrack(w, More(w, produced), k)
  {
    hide Valid, Ended, LockOnTrack, CheckOnTrack;
  }

  lemma OverStays(v: View, input: Input, produced: set<(Recipe, Bytes)>, k: Task)
    requires v.builder.pc.Returned? || v.builder.pc.Failed?
    ensures StepBuilder(v, input) == v
  {
  }

  lemma WhereOnTrack(v: View, produced: set<(Recipe, Bytes)>, k: Task)
    requires OnTrack(v, produced, k)
    ensures var pc := v.builder.pc;
            || pc.DigestSource? || Checking(pc) || Locking(pc) || Making(pc) || pc.RenameManifest? || pc.RemoveStage?
            || pc.Returned? || pc.Failed?
  {
    hide Ended, CheckOnTrack, LockOnTrack, MakeOnTrack;
  }

  lemma StepStays(v: View, produced: set<(Recipe, Bytes)>, k: Task)
    requires OnTrack(v, produced, k) && v.made.None?
    ensures var w := StepBuilder(v, Answer(v.builder, k.out)); OnTrack(w, More(w, produced), k)
  {
    WhereOnTrack(v, produced, k);
    hide OnTrack, StepDigest, StepCheck, StepLock, StepMake, Answer;
    var pc := v.builder.pc;
    if pc.DigestSource? { DigestStays(v, produced, k); }
    else if Checking(pc) { CheckStays(v, produced, k); }
    else if pc.Release? { ReleaseStays(v, produced, k); }
    else if Locking(pc) { LockStays(v, produced, k); }
    else if pc.RenamePayload? || pc.RenameManifest? || pc.RemoveStage? { PublishStays(v, produced, k); }
    else if pc.DigestStage? || pc.WriteManifest? { StageStays(v, produced, k); }
    else if Making(pc) { MakeStays(v, produced, k); }
    else { OverStays(v, Answer(v.builder, k.out), produced, k); }
  }

  // ---- in the whole system ----

  /** Another look at the same call, with the files as they are by then. */
  lemma LookAgain(v: View, clock: nat, source: Option<Bytes>, produced: set<(Recipe, Bytes)>, k: Task)
    requires OnTrack(v, produced, k) && v.clock <= clock
    requires source == if k.slot == SOURCE then v.payload else v.source
    ensures OnTrack(v.(clock := clock, source := source, made := None), produced, k)
  {
    hide Valid;
  }

  lemma ApplyStays(s: State, p: Pid, e: Event, k: Task)
    requires p in s.builders && OnTrack(Look(s, p), s.produced, k)
    requires e.Tick? || e == Step(p, Answer(s.builders[p], k.out))
    ensures var t := Apply(s, e); p in t.builders && OnTrack(Look(t, p), t.produced, k)
  {
    hide OnTrack, StepBuilder, Answer, At, With, Disturb;
    var v, t := Look(s, p), Apply(s, e);
    SlotOf(v, s.produced, k);
    match e
    case Tick(ms) =>
      LookAgain(v, t.clock, v.source, s.produced, k);
    case Step(_, _) =>
      StepStays(v, s.produced, k);
      var w := StepBuilder(v, Answer(v.builder, k.out));
      SlotOf(w, More(w, s.produced), k);
      ClockStays(v, Answer(v.builder, k.out));
      WithAt(s.payloads, k.slot, w.payload, k.slot);
      WithAt(s.payloads, k.slot, w.payload, SOURCE);
      WithAt(s.manifests, k.slot, w.manifest, k.slot);
      WithAt(s.locks, k.slot, w.lock, k.slot);
      var source := if k.slot == SOURCE then w.payload else w.source;
      LookAgain(w, w.clock, source, More(w, s.produced), k);
      assert Look(t, p) == w.(source := source, made := None);
  }

  lemma SlotOf(v: View, produced: set<(Recipe, Bytes)>, k: Task)
    requires OnTrack(v, produced, k)
    ensures v.builder.slot == k.slot
  {
  }

  lemma ClockStays(v: View, input: Input)
    ensures var w := StepBuilder(v, input); w.clock == v.clock && w.source == v.source
  {
  }

  lemma {:induction false} RunStays(s: State, p: Pid, events: seq<Event>, k: Task)
    requires p in s.builders && OnTrack(Look(s, p), s.produced, k) && Undisturbed(s, p, k.out, events)
    ensures var t := Run(s, events); p in t.builders && OnTrack(Look(t, p), t.produced, k)
    decreases |events|
  {
    hide OnTrack, Apply, Answer;
    if events != [] {
      ApplyStays(s, p, events[0], k);
      RunStays(Apply(s, events[0]), p, events[1..], k);
    }
  }

  // ---- and when ----

  /** The lock that was found is no obstacle from the start. */
  predicate FreeAtOnce(k: Task) { Free(k, k.began) }

  /** The steps left, naps aside, when the lock is no obstacle. */
  function StepsLeft(v: View): nat {
    match v.builder.pc
    case DigestSource => 20
    case ReadManifest(locked) => if locked then 10 else 19
    case ReadPayload(locked, _) => if locked then 9 else 18
    case MakeRoot => 17
    case TryLock(_) => if v.lock.Some? then 16 else 11
    case StatLock(_) => 15
    case JudgeLock(_, _) => 14
    case StealLock(_) => 13
    case Sleep(_, _) => 12
    case Download => 8
    case Compile => 7
    case Unpack(_) => 7
    case DigestStage(_) => 6
    case WriteManifest(_, _) => 5
    case RenamePayload(_, _) => 4
    case RenameManifest(_, _) => 3
    case RemoveStage(_) => 2
    case Release(_) => 1
    case _ => 0
  }

  const SHORT := 20

  lemma CheckShortens(v: View, produced: set<(Recipe, Bytes)>, k: Task)
    requires OnTrack(v, produced, k) && (v.builder.pc.DigestSource? || Checking(v.builder.pc))
    ensures StepsLeft(StepBuilder(v, Answer(v.builder, k.out))) < StepsLeft(v)
  {
    hide OnTrack, Valid;
  }

  lemma LockShortens(v: View, produced: set<(Recipe, Bytes)>, k: Task)
    requires OnTrack(v, produced, k) && FreeAtOnce(k) && Locking(v.builder.pc) && !Asleep(v.builder.pc, v.clock)
    ensures StepsLeft(StepLock(v, Answer(v.builder, k.out))) < StepsLeft(v)
  {
    hide Valid, Ended, PublishOnTrack, MakeOnTrack, CheckOnTrack;
  }

  lemma MakeShortens(v: View, out: Bytes)
    requires Making(v.builder.pc) || v.builder.pc.RenameManifest? || v.builder.pc.RemoveStage?
    ensures StepsLeft(StepMake(v, Answer(v.builder, out))) < StepsLeft(v)
  {
  }

  lemma StepShortens(v: View, produced: set<(Recipe, Bytes)>, k: Task)
    requires OnTrack(v, produced, k) && FreeAtOnce(k) && !Over(v.builder.pc) && !Asleep(v.builder.pc, v.clock)
    ensures StepsLeft(StepBuilder(v, Answer(v.builder, k.out))) < StepsLeft(v)
  {
    WhereOnTrack(v, produced, k);
    hide OnTrack, StepDigest, StepCheck, StepLock, StepMake, Answer, StepsLeft;
    var pc := v.builder.pc;
    if pc.DigestSource? || Checking(pc) { CheckShortens(v, produced, k); }
    else if Locking(pc) { LockShortens(v, produced, k); }
    else { MakeShortens(v, k.out); }
  }

  lemma Idle(v: View, input: Input)
    requires Over(v.builder.pc) || Asleep(v.builder.pc, v.clock)
    ensures StepBuilder(v, input) == v
  {
  }

  lemma LookLeft(v: View, clock: nat, source: Option<Bytes>)
    ensures StepsLeft(v.(clock := clock, source := source, made := None)) == StepsLeft(v)
  {
  }

  lemma ApplyShortens(s: State, p: Pid, e: Event, k: Task)
    requires p in s.builders && OnTrack(Look(s, p), s.produced, k) && FreeAtOnce(k)
    requires e.Tick? || e == Step(p, Answer(s.builders[p], k.out))
    ensures var t := Apply(s, e);
            p in t.builders && StepsLeft(Look(t, p)) + (if Moves(s, p, e) then 1 else 0) <= StepsLeft(Look(s, p))
  {
    hide OnTrack, StepBuilder, Answer, At, With, Disturb, StepsLeft;
    var v, t := Look(s, p), Apply(s, e);
    SlotOf(v, s.produced, k);
    match e
    case Tick(ms) => LookLeft(v, t.clock, v.source);
    case Step(_, _) =>
      var w := StepBuilder(v, Answer(v.builder, k.out));
      if Moves(s, p, e) { StepShortens(v, s.produced, k); } else { Idle(v, Answer(v.builder, k.out)); }
      StepStays(v, s.produced, k);
      SlotOf(w, More(w, s.produced), k);
      ClockStays(v, Answer(v.builder, k.out));
      WithAt(s.payloads, k.slot, w.payload, k.slot);
      WithAt(s.manifests, k.slot, w.manifest, k.slot);
      WithAt(s.locks, k.slot, w.lock, k.slot);
      LookLeft(w, w.clock, Look(t, p).source);
      assert Look(t, p) == w.(source := Look(t, p).source, made := None);
  }

  lemma {:induction false} RunShortens(s: State, p: Pid, events: seq<Event>, k: Task)
    requires p in s.builders && OnTrack(Look(s, p), s.produced, k) && FreeAtOnce(k)
    requires Undisturbed(s, p, k.out, events)
    ensures var t := Run(s, events);
            p in t.builders && StepsLeft(Look(t, p)) + Moved(s, p, events) <= StepsLeft(Look(s, p))
    decreases |events|
  {
    hide OnTrack, Apply, Answer, Moves, StepsLeft;
    if events != [] {
      ApplyStays(s, p, events[0], k);
      ApplyShortens(s, p, events[0], k);
      RunShortens(Apply(s, events[0]), p, events[1..], k);
    }
  }

  // ---- a call, from its start to its end ----

  /** The recipe a call goes by once it has digested the source, if it is for an object. */
  function Asked(s: State, b: Builder): Recipe
    requires b.recipe.Object? ==> SOURCE in s.payloads
  {
    if b.pc.DigestSource? && b.recipe.Object? then b.recipe.(source := Sha256(s.payloads[SOURCE])) else b.recipe
  }

  predicate Starting(b: Builder) { b.pc == ReadManifest(false) || (b.pc.DigestSource? && b.recipe.Object?) }

  function TaskOf(s: State, p: Pid, out: Bytes): Task
    requires p in s.builders && (s.builders[p].recipe.Object? ==> SOURCE in s.payloads)
  {
    var b := s.builders[p];
    Task(b.slot, Asked(s, b), At(s.payloads, SOURCE), At(s.payloads, b.slot), At(s.manifests, b.slot),
         At(s.locks, b.slot), s.clock, s.produced, out)
  }

  lemma StartsOnTrack(s: State, p: Pid, out: Bytes)
    requires p in s.builders && Starting(s.builders[p])
    requires s.builders[p].recipe.Object? ==> SOURCE in s.payloads
    ensures OnTrack(Look(s, p), s.produced, TaskOf(s, p, out))
    ensures StepsLeft(Look(s, p)) <= SHORT && Rank(s.builders[p].pc, s.clock) <= STEPS
  {
  }

  /** At its end a call that was on track has ended as it should; with no step left, or no rank, it is at its end. */
  lemma EndsOnTrack(v: View, produced: set<(Recipe, Bytes)>, k: Task)
    requires OnTrack(v, produced, k) && (StepsLeft(v) == 0 || Rank(v.builder.pc, v.clock) == 0)
    ensures Ended(k, v.builder, v.clock, v.payload, v.manifest, v.lock, produced) && v.builder.slot == k.slot
  {
    WhereOnTrack(v, produced, k);
    hide Ended, CheckOnTrack, LockOnTrack, MakeOnTrack, PublishOnTrack;
  }

  /**
   * A call that nobody disturbs, the digest of the source included, builds exactly when the check is not already true,
   * and returns what makes the check true. If the lock is not held, or is older than 5 minutes, it takes at most
   * `SHORT` steps besides its naps. Unless the check was true before, no lock is left, not the old one either. Only a
   * call that finds the lock held fails, when over 30 seconds have gone by, and then it has changed nothing.
   */
  lemma UndisturbedCall(s: State, p: Pid, out: Bytes, events: seq<Event>)
    requires p in s.builders && Starting(s.builders[p])
    requires s.builders[p].recipe.Object? ==> SOURCE in s.payloads
    requires Undisturbed(s, p, out, events)
    requires Moved(s, p, events) >= if FreeAtOnce(TaskOf(s, p, out)) then SHORT else STEPS
    ensures var t, k := Run(s, events), TaskOf(s, p, out);
            && p in t.builders && t.builders[p].slot == k.slot
            && Ended(k, t.builders[p], t.clock, At(t.payloads, k.slot), At(t.manifests, k.slot), At(t.locks, k.slot),
                     t.produced)
  {
    hide Run, Moved, OnTrack, Ended, Rank, StepsLeft;
    var k := TaskOf(s, p, out);
    StartsOnTrack(s, p, out);
    RunStays(s, p, events, k);
    if FreeAtOnce(k) { RunShortens(s, p, events, k); } else { RunDrops(s, p, events); }
    EndsOnTrack(Look(Run(s, events), p), Run(s, events).produced, k);
  }

  /** What a call leaves when it returns makes the check true. */
  lemma EndedValid(k: Task, b: Builder, clock: nat, payload: Option<Bytes>, manifest: Option<Manifest>,
                   lock: Option<nat>, produced: set<(Recipe, Bytes)>)
    requires Ended(k, b, clock, payload, manifest, lock, produced) && b.pc.Returned?
    ensures Valid(payload, manifest, k.recipe) && b.accepted == payload
  {
  }
}
