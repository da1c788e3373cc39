/** Every call of the SQLite cache comes to an end, whatever the others do and however the world answers. */
module SqliteLiveness {
  import opened Options
  import opened SqlitePublish

  /** Rounds of the waiting loop left before the deadline. */
  function Rounds(clock: nat, deadline: nat): nat { if clock <= deadline then (deadline - clock) / NAP + 1 else 0 }

  function Later(clock: nat, until: nat): nat { if clock < until then until else clock }

  /** Before a look at the deadline, `place` steps away. */
  function BeforeDeadline(clock: nat, deadline: nat, place: nat): nat {
    place + (if clock <= deadline then 5 + 5 * Rounds(clock, deadline) else 0)
  }

  const FIRST := 17 + 5 * (DEADLINE / NAP + 1)

  /** The most steps a call can still take that are not spent asleep. */
  function Rank(pc: Pc, clock: nat): nat {
    match pc
    case DigestSource => FIRST + 3
    case ReadManifest(locked) => if locked then 10 else FIRST + 2
    case ReadPayload(locked, _) => if locked then 9 else FIRST + 1
    case MakeRoot => FIRST
    case TryLock(deadline) => BeforeDeadline(clock, deadline, 11)
    case StatLock(deadline) => 15 + 5 * Rounds(clock, deadline)
    case JudgeLock(deadline, _) => 14 + 5 * Rounds(clock, deadline)
    case StealLock(deadline) => 13 + 5 * Rounds(clock, deadline)
    case Sleep(deadline, until) => BeforeDeadline(Later(clock, until), deadline, 12)
    case Download => 8
    case Compile => 7
    case Unpack(_) => 7
    case DigestStage(_) => 6
    case WriteManifest(_, _) => 5
    case RenamePayload(_, _) => 4
    case RenameManifest(_, _) => 3
    case RemoveStage(_) => 2
    case Release(_) => 1
    case _ => 0
  }

  const STEPS := FIRST + 3

  predicate Asleep(pc: Pc, clock: nat) { pc.Sleep? && clock < pc.until }

  lemma RankZero(pc: Pc, clock: nat)
    ensures Rank(pc, clock) == 0 <==> Over(pc)
    ensures Rank(pc, clock) <= STEPS || Locking(pc)
  {
  }

  /** Time that passes only brings the deadline nearer. */
  lemma RankLater(pc: Pc, clock: nat, ms: nat)
    ensures Rank(pc, clock + ms) <= Rank(pc, clock)
  {
  }

  lemma DigestDrops(v: View, input: Input)
    requires v.builder.pc.DigestSource?
    ensures Rank(StepDigest(v, input).builder.pc, v.clock) < Rank(v.builder.pc, v.clock)
  {
  }

  lemma CheckDrops(v: View, input: Input)
    requires Checking(v.builder.pc)
    ensures Rank(StepCheck(v, input).builder.pc, v.clock) < Rank(v.builder.pc, v.clock)
  {
  }

  lemma RoundDrops(clock: nat, deadline: nat)
    ensures clock <= deadline ==> Rounds(clock, deadline) == Rounds(clock + NAP, deadline) + 1
    ensures clock > deadline ==> Rounds(clock + NAP, deadline) == 0
    ensures Rounds(clock, clock + DEADLINE) == DEADLINE / NAP + 1
  {
  }

  lemma WaitDrops(v: View, input: Input)
    requires v.builder.pc.StatLock? || v.builder.pc.JudgeLock? || v.builder.pc.StealLock?
    ensures Rank(StepLock(v, input).builder.pc, v.clock) < Rank(v.builder.pc, v.clock)
  {
    RoundDrops(v.clock, v.builder.pc.deadline);
    hide Rounds;
  }

  lemma TryDrops(v: View, input: Input)
    requires v.builder.pc.TryLock? || v.builder.pc.Sleep?
    requires !Asleep(v.builder.pc, v.clock)
    ensures Rank(StepLock(v, input).builder.pc, v.clock) < Rank(v.builder.pc, v.clock)
  {
    RoundDrops(v.clock, v.builder.pc.deadline);
    hide Rounds;
  }

  lemma RootDrops(v: View, input: Input)
    requires v.builder.pc.MakeRoot? || v.builder.pc.Release?
    ensures Rank(StepLock(v, input).builder.pc, v.clock) < Rank(v.builder.pc, v.clock)
  {
    RoundDrops(v.clock, v.clock + DEADLINE);
    hide Rounds;
  }

  lemma LockDrops(v: View, input: Input)
    requires Locking(v.builder.pc) && !Asleep(v.builder.pc, v.clock)
    ensures Rank(StepLock(v, input).builder.pc, v.clock) < Rank(v.builder.pc, v.clock)
  {
    hide Rank, StepLock;
    if v.builder.pc.StatLock? || v.builder.pc.JudgeLock? || v.builder.pc.StealLock? { WaitDrops(v, input); }
    else if v.builder.pc.TryLock? || v.builder.pc.Sleep? { TryDrops(v, input); }
    else { RootDrops(v, input); }
  }

  lemma MakeDrops(v: View, input: Input)
    requires !v.builder.pc.DigestSource? && !Checking(v.builder.pc) && !Locking(v.builder.pc) && !Over(v.builder.pc)
    ensures Rank(StepMake(v, input).builder.pc, v.clock) < Rank(v.builder.pc, v.clock)
  {
  }

  /** Every step of a call that is awake and at work, whatever its system call answers, brings it nearer to its end. */
  lemma RankDrops(v: View, input: Input)
    requires !Over(v.builder.pc) && !Asleep(v.builder.pc, v.clock)
    ensures Rank(StepBuilder(v, input).builder.pc, v.clock) < Rank(v.builder.pc, v.clock)
  {
    hide Rank, StepDigest, StepCheck, StepLock, StepMake;
    if v.builder.pc.DigestSource? { DigestDrops(v, input); }
    else if Checking(v.builder.pc) { CheckDrops(v, input); }
    else if Locking(v.builder.pc) { LockDrops(v, input); }
    else { MakeDrops(v, input); }
  }

  /** A step of call `p` that is not spent asleep or after its end. */
  predicate Moves(s: State, p: Pid, e: Event) {
    && e.Step? && e.pid == p && p in s.builders
    && !Over(s.builders[p].pc) && !Asleep(s.builders[p].pc, s.clock)
  }

  function Moved(s: State, p: Pid, events: seq<Event>): nat
    decreases |events|
  {
    if events == [] then 0
    else (if Moves(s, p, events[0]) then 1 else 0) + Moved(Apply(s, events[0]), p, events[1..])
  }

  lemma IdleStep(v: View, input: Input)
    requires Over(v.builder.pc) || Asleep(v.builder.pc, v.clock)
    ensures StepBuilder(v, input).builder.pc == v.builder.pc
  {
  }

  /** Whatever happens, a call gets no further from its end, and nearer if it moves; only a crash crashes it. */
  lemma ApplyDrops(s: State, p: Pid, e: Event)
    requires p in s.builders
    ensures var t := Apply(s, e);
            && p in t.builders
            && Rank(t.builders[p].pc, t.clock) + (if Moves(s, p, e) then 1 else 0) <= Rank(s.builders[p].pc, s.clock)
            && (t.builders[p].pc.Crashed? ==> s.builders[p].pc.Crashed? || e == Crash(p))
  {
    hide Rank, StepBuilder, At, With;
    match e
    case Tick(ms) => RankLater(s.builders[p].pc, s.clock, ms);
    case Corrupt(slot, payload) =>
    case Crash(q) => if q == p { RankZero(Crashed, s.clock); }
    case Step(q, input) =>
      if q == p {
        var v := Look(s, p);
        NoCrash(v, input);
        if Moves(s, p, e) { RankDrops(v, input); } else { IdleStep(v, input); }
      }
  }

  lemma NoCrash(v: View, input: Input)
    ensures StepBuilder(v, input).builder.pc.Crashed? ==> v.builder.pc.Crashed?
  {
    hide StepLock;
    if Locking(v.builder.pc) { LockWaits(v, input); }
  }

  lemma LockWaits(v: View, input: Input)
    requires Locking(v.builder.pc)
    ensures var w := StepLock(v, input);
            && w.clock == v.clock && !w.builder.pc.Crashed?
            && (w.builder.pc.Sleep? ==> w.builder.pc == v.builder.pc || w.builder.pc.until == v.clock + NAP)
  {
  }

  lemma {:induction false} RunDrops(s: State, p: Pid, events: seq<Event>)
    requires p in s.builders
    ensures var t := Run(s, events);
            && p in t.builders
            && Rank(t.builders[p].pc, t.clock) + Moved(s, p, events) <= Rank(s.builders[p].pc, s.clock)
            && (t.builders[p].pc.Crashed? ==> s.builders[p].pc.Crashed? || Crash(p) in events)
    decreases |events|
  {
    hide Rank, Apply, Moves;
    if events != [] {
      ApplyDrops(s, p, events[0]);
      RunDrops(Apply(s, events[0]), p, events[1..]);
    }
  }

  /** A call that sleeps has at most one nap to go. */
  lemma {:induction false} ShortNaps(s: State, events: seq<Event>, p: Pid)
    requires p in s.builders && (s.builders[p].pc.Sleep? ==> s.builders[p].pc.until <= s.clock + NAP)
    ensures var t := Run(s, events);
            p in t.builders && (t.builders[p].pc.Sleep? ==> t.builders[p].pc.until <= t.clock + NAP)
    decreases |events|
  {
    hide Apply;
    if events != [] {
      NapStep(s, p, events[0]);
      ShortNaps(Apply(s, events[0]), events[1..], p);
    }
  }

  lemma NapStep(s: State, p: Pid, e: Event)
    requires p in s.builders && (s.builders[p].pc.Sleep? ==> s.builders[p].pc.until <= s.clock + NAP)
    ensures var t := Apply(s, e);
            p in t.builders && (t.builders[p].pc.Sleep? ==> t.builders[p].pc.until <= t.clock + NAP)
  {
    hide At, With, StepBuilder;
    if e.Step? && e.pid == p { NapLength(Look(s, p), e.input); }
  }

  lemma NapLength(v: View, input: Input)
    requires v.builder.pc.Sleep? ==> v.builder.pc.until <= v.clock + NAP
    ensures var w := StepBuilder(v, input);
            w.clock == v.clock && (w.builder.pc.Sleep? ==> w.builder.pc.until <= v.clock + NAP)
  {
    hide StepLock;
    if Locking(v.builder.pc) { LockWaits(v, input); }
  }

  /**
   * In every run, however the others move, crash, hold or steal locks, and however the system calls answer: a call
   * makes at most `STEPS` steps that are not spent asleep, and sleeps no longer than one nap at a time; after that many
   * steps it has returned or failed, unless it was crashed.
   */
  lemma EveryCallEnds(s: State, events: seq<Event>, p: Pid)
    requires Init(s) && p in s.builders
    ensures var t := Run(s, events);
            && p in t.builders && Moved(s, p, events) <= STEPS
            && (Moved(s, p, events) == STEPS ==> Over(t.builders[p].pc))
            && (t.builders[p].pc.Sleep? ==> t.builders[p].pc.until <= t.clock + NAP)
            && (t.builders[p].pc.Crashed? ==> Crash(p) in events)
  {
    hide Run, Moved, Rank;
    RankZero(s.builders[p].pc, s.clock);
    RunDrops(s, p, events);
    ShortNaps(s, events, p);
    var t := Run(s, events);
    RankZero(t.builders[p].pc, t.clock);
  }

  // ---- nobody gives up early ----

  /** In the waiting loop. */
  predicate Waiting(pc: Pc) { pc.TryLock? || pc.StatLock? || pc.JudgeLock? || pc.StealLock? || pc.Sleep? }

  /** Its deadline is at least 30 seconds after `began`. */
  predicate Patient(pc: Pc, began: nat) { Waiting(pc) ==> began + 30_000 <= pc.deadline }

  lemma LockPatient(v: View, input: Input, began: nat)
    requires Locking(v.builder.pc) && Patient(v.builder.pc, began) && began <= v.clock
    ensures var w := StepLock(v, input);
            && Patient(w.builder.pc, began)
            && (Waiting(v.builder.pc) && w.builder.pc.Failed? ==> v.builder.pc.TryLock? && v.clock > began + 30_000)
  {
  }

  lemma ElsewhereNoWait(v: View, input: Input)
    requires !Locking(v.builder.pc)
    ensures var w := StepBuilder(v, input); w.clock == v.clock && !Waiting(w.builder.pc) && !Waiting(v.builder.pc)
  {
    hide StepLock;
    if !v.builder.pc.DigestSource? && !Checking(v.builder.pc) { MakeNoWait(v, input); }
  }

  lemma MakeNoWait(v: View, input: Input)
    requires !v.builder.pc.DigestSource? && !Checking(v.builder.pc) && !Locking(v.builder.pc)
    ensures var w := StepMake(v, input); w.clock == v.clock && !Waiting(w.builder.pc)
  {
  }

  lemma StepPatient(v: View, input: Input, began: nat)
    requires Patient(v.builder.pc, began) && began <= v.clock
    ensures var w := StepBuilder(v, input);
            && w.clock == v.clock && Patient(w.builder.pc, began)
            && (Waiting(v.builder.pc) && w.builder.pc.Failed? ==> v.clock > began + 30_000)
  {
    hide StepDigest, StepCheck, StepLock, StepMake;
    if Locking(v.builder.pc) {
      LockPatient(v, input, began);
      LockWaits(v, input);
    } else {
      ElsewhereNoWait(v, input);
    }
  }

  lemma ApplyPatient(s: State, e: Event, p: Pid, began: nat)
    requires p in s.builders && Patient(s.builders[p].pc, began) && began <= s.clock
    ensures var t := Apply(s, e);
            && p in t.builders && Patient(t.builders[p].pc, began) && began <= t.clock
            && (Waiting(s.builders[p].pc) && t.builders[p].pc.Failed? ==> s.clock > began + 30_000)
  {
    hide StepBuilder, At, With;
    if e.Step? && e.pid == p { StepPatient(Look(s, p), e.input, began); }
  }

  lemma {:induction false} RunPatient(s: State, events: seq<Event>, p: Pid, began: nat)
    requires p in s.builders && Patient(s.builders[p].pc, began) && began <= s.clock
    ensures var t := Run(s, events); p in t.builders && Patient(t.builders[p].pc, began) && began <= t.clock
    decreases |events|
  {
    hide Apply, Patient;
    if events != [] {
      ApplyPatient(s, events[0], p, began);
      RunPatient(Apply(s, events[0]), events[1..], p, began);
    }
  }

  /** However locks come and go, and however the system calls answer: a call that waits for the lock gives up only when
      more than 30 seconds have gone by since any time at which it was not waiting yet. */
  lemma GivesUpLate(s: State, events: seq<Event>, e: Event, p: Pid)
    requires p in s.builders && !Waiting(s.builders[p].pc)
    ensures var t := Run(s, events);
            && p in t.builders && p in Apply(t, e).builders
            && (Waiting(t.builders[p].pc) && Apply(t, e).builders[p].pc.Failed? ==> t.clock > s.clock + 30_000)
  {
    hide Run, Apply;
    RunPatient(s, events, p, s.clock);
    ApplyPatient(Run(s, events), e, p, s.clock);
  }
}
