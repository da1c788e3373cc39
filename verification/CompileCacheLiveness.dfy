/** Every call of the compile cache comes to an answer when it is let run alone, wherever it stands. */
module CompileCacheLiveness {
  import opened Options
  import opened CompileCache
  import opened CompileCacheExclusion

  /** How the world answers when nothing fails and the compiler writes `out`. */
  function Answer(v: View, out: Bytes): Input {
    match v.proc.pc
    case Compile => Output(out)
    case ClearEntry =>
      if v.entry.Some? && v.entry.value.binary.Some? then Piece(0)
      else if v.entry.Some? && v.entry.value.record.Some? then Piece(1)
      else Ok
    case Publish(bytes, _, _) => if v.proc.tmp == Some(bytes) then Ok else Piece(|bytes|)
    case _ => Ok
  }

  const NAP := 100

  /** The call is about to sleep before it tries the lock again. */
  predicate Sleeps(v: View) { v.proc.pc.JudgeLock? && v.clock - v.proc.pc.mtime <= STALE }

  /** Rounds of the waiting loop left before the deadline. */
  function Rounds(v: View, deadline: nat): nat { if v.clock <= deadline then (deadline - v.clock) / NAP + 1 else 0 }

  function Verify(pc: Pc): nat { if pc.ReadRecord? then 2 else if pc.StatBinary? then 1 else 0 }

  function SiteOf(pc: Pc): Site
    requires Verifying(pc)
  {
    match pc
    case ReadRecord(site) => site
    case StatBinary(site, _) => site
    case ReadBinary(site, _) => site
  }

  /** In the waiting loop, before its deadline is looked at. */
  function BeforeDeadline(v: View, deadline: nat, place: nat): nat
    requires place < 4
  {
    if v.clock > deadline then 20 + place else 32 + 12 * Rounds(v, deadline) + place
  }

  const FIRST := 40 + 12 * (DEADLINE / NAP + 1)

  /** The most steps a call can still take when nothing fails and nobody else moves. */
  function Rank(v: View): nat {
    var pc := v.proc.pc;
    if Verifying(pc) then
      match SiteOf(pc)
      case Entry => FIRST + 1 + Verify(pc)
      case Waiting(deadline) => BeforeDeadline(v, deadline, Verify(pc))
      case Locked => 13 + Verify(pc)
    else
      match pc
      case MakeRoot => FIRST
      case TryLock(deadline) => if v.lock.None? then 16 else BeforeDeadline(v, deadline, 3)
      case StatLock(deadline) => 31 + 12 * Rounds(v, deadline)
      case JudgeLock(deadline, _) => 30 + 12 * Rounds(v, deadline)
      case StealLock(_) => 17
      case ClearEntry =>
        10 + (if v.entry.Some? && v.entry.value.binary.Some? then 1 else 0)
        + (if v.entry.Some? && v.entry.value.record.Some? then 1 else 0)
      case MakeStage => 9
      case Compile => 8
      case ReadCandidate => 7
      case Chmod(_) => 6
      case WriteRecord(_) => 5
      case RenameStage(_) => 4
      case Publish(bytes, _, _) => if v.proc.tmp == Some(bytes) then 2 else 3
      case RemoveStage => 2
      case Release(_) => 1
      case _ => 0
  }

  /** The call can still be at work: its deadline, if it has one, is no further off than it was given. */
  predicate InTime(pc: Pc, clock: nat) {
    match pc
    case ReadRecord(site) => site.Waiting? ==> site.deadline <= clock + DEADLINE
    case StatBinary(site, _) => site.Waiting? ==> site.deadline <= clock + DEADLINE
    case ReadBinary(site, _) => site.Waiting? ==> site.deadline <= clock + DEADLINE
    case TryLock(deadline) => deadline <= clock + DEADLINE
    case StatLock(deadline) => deadline <= clock + DEADLINE
    case JudgeLock(deadline, _) => deadline <= clock + DEADLINE
    case StealLock(deadline) => deadline <= clock + DEADLINE
    case _ => true
  }

  predicate Over(pc: Pc) { pc.Done? || pc.Crashed? }

  lemma RankZero(v: View)
    ensures Rank(v) == 0 <==> Over(v.proc.pc)
  {
  }

  /** Time that passes only brings the deadline nearer. */
  lemma RankLater(v: View, ms: nat)
    ensures Rank(v.(clock := v.clock + ms)) <= Rank(v)
  {
  }

  function Woken(v: View, w: View): View { if Sleeps(v) then w.(clock := w.clock + NAP) else w }

  lemma VerifyDrops(v: View, out: Bytes)
    requires Verifying(v.proc.pc)
    ensures Rank(StepVerify(v, Answer(v, out))) < Rank(v)
  {
  }

  lemma LockDrops(v: View, out: Bytes)
    requires Locking(v.proc.pc) && InTime(v.proc.pc, v.clock)
    ensures Rank(Woken(v, StepLock(v, Answer(v, out)))) < Rank(v)
  {
  }

  lemma CleanDrops(v: View, out: Bytes)
    requires Cleaning(v.proc.pc)
    ensures Rank(StepClean(v, Answer(v, out))) < Rank(v)
  {
  }

  lemma PublishDrops(v: View, out: Bytes)
    requires v.proc.pc.Publish?
    ensures Rank(StepPublish(v, Answer(v, out))) < Rank(v)
  {
    assert v.proc.pc.bytes[..|v.proc.pc.bytes|] == v.proc.pc.bytes;
  }

  lemma BuildDrops(v: View, out: Bytes)
    requires !Verifying(v.proc.pc) && !Locking(v.proc.pc) && !v.proc.pc.Publish? && !Cleaning(v.proc.pc)
    requires !Over(v.proc.pc)
    ensures Rank(StepBuild(v, Answer(v, out))) < Rank(v)
  {
  }

  /** Every step of a call that is still at work brings it nearer to its answer. */
  lemma RankDrops(v: View, out: Bytes)
    requires !Over(v.proc.pc) && InTime(v.proc.pc, v.clock)
    ensures Rank(Woken(v, StepCall(v, Answer(v, out)))) < Rank(v)
  {
    hide Rank, StepVerify, StepLock, StepClean, StepPublish, StepBuild, Answer, InTime;
    if Verifying(v.proc.pc) { VerifyDrops(v, out); }
    else if Locking(v.proc.pc) { LockDrops(v, out); }
    else if v.proc.pc.Publish? { PublishDrops(v, out); }
    else if Cleaning(v.proc.pc) { CleanDrops(v, out); }
    else { BuildDrops(v, out); }
  }

  // ---- in the whole system ----

  function Forget(v: View): View { v.(made := None, delivered := None) }

  /** A step leaves the call who it is, gives it no more time than it had, and does not crash it. */
  predicate GoesOn(v: View, w: View) {
    && w.pid == v.pid && w.clock == v.clock && w.proc.key == v.proc.key && w.proc.out == v.proc.out
    && (InTime(v.proc.pc, v.clock) ==> InTime(w.proc.pc, v.clock))
    && (w.proc.pc.Crashed? ==> v.proc.pc.Crashed?)
  }

  lemma VerifyGoesOn(v: View, input: Input)
    ensures GoesOn(v, StepVerify(v, input))
  {
  }

  lemma LockGoesOn(v: View, input: Input)
    ensures GoesOn(v, StepLock(v, input))
  {
  }

  lemma PublishGoesOn(v: View, input: Input)
    ensures GoesOn(v, StepPublish(v, input))
  {
  }

  lemma CleanGoesOn(v: View, input: Input)
    ensures GoesOn(v, StepClean(v, input))
  {
  }

  lemma BuildGoesOn(v: View, input: Input)
    ensures GoesOn(v, StepBuild(v, input))
  {
  }

  lemma StepGoesOn(v: View, input: Input)
    ensures GoesOn(v, StepCall(v, input))
  {
    hide GoesOn, StepVerify, StepLock, StepPublish, StepClean, StepBuild;
    VerifyGoesOn(v, input);
    LockGoesOn(v, input);
    PublishGoesOn(v, input);
    CleanGoesOn(v, input);
    BuildGoesOn(v, input);
  }

  lemma StillInTime(pc: Pc, clock: nat, ms: nat)
    requires InTime(pc, clock)
    ensures InTime(pc, clock + ms)
  {
  }

  lemma LookWrite(s: State, v: View)
    requires v.pid in s.procs && v.clock == s.clock
    ensures v.pid in Write(s, v).procs && Look(Write(s, v), v.pid) == Forget(v)
    ensures At(Write(s, v).delivered, v.pid) == if v.delivered.Some? then v.delivered else At(s.delivered, v.pid)
    ensures forall q :: q != v.pid ==> At(Write(s, v).delivered, q) == At(s.delivered, q)
    ensures forall q :: q != v.pid && q in s.procs ==> q in Write(s, v).procs && Write(s, v).procs[q] == s.procs[q]
  {
  }

  lemma {:induction false} RunAppend(s: State, a: seq<Event>, b: seq<Event>)
    ensures Run(s, a + b) == Run(Run(s, a), b)
    decreases |a|
  {
    hide Apply;
    if a == [] {
      assert a + b == b;
    } else {
      assert (a + b)[1..] == a[1..] + b;
      RunAppend(Apply(s, a[0]), a[1..], b);
    }
  }

  /** One turn: call `p` makes a step, sleeps if that is what it does, and `ms` milliseconds go by. */
  function Turn(p: Pid, input: Input, nap: nat, ms: nat): seq<Event> { [Step(p, input), Tick(nap), Tick(ms)] }

  /** The events of as many turns of call `p` as times are given. */
  function Turns(s: State, p: Pid, out: Bytes, times: seq<nat>): seq<Event>
    requires p in s.procs
    decreases |times|
  {
    if times == [] then []
    else
      var v := Look(s, p);
      var turn := Turn(p, Answer(v, out), if Sleeps(v) then NAP else 0, times[0]);
      TurnIs(s, p, out, times[0]);
      turn + Turns(Run(s, turn), p, out, times[1..])
  }

  /** Nobody but call `p` has moved. */
  ghost predicate Beside(s: State, t: State, p: Pid) {
    forall q :: q != p ==>
      At(t.delivered, q) == At(s.delivered, q) && (q in s.procs ==> q in t.procs && t.procs[q] == s.procs[q])
  }

  /** What a turn does to the call, and what it leaves alone. */
  lemma TurnIs(s: State, p: Pid, out: Bytes, ms: nat)
    requires p in s.procs
    ensures var v := Look(s, p);
            var t := Run(s, Turn(p, Answer(v, out), if Sleeps(v) then NAP else 0, ms));
            var w := Woken(v, StepCall(v, Answer(v, out)));
            && p in t.procs && Look(t, p) == Forget(w.(clock := w.clock + ms))
            && At(t.delivered, p) == (if w.delivered.Some? then w.delivered else At(s.delivered, p))
            && Beside(s, t, p)
  {
    hide StepCall, Answer, Write, At;
    var v := Look(s, p);
    var input, nap := Answer(v, out), if Sleeps(v) then NAP else 0;
    StepGoesOn(v, input);
    LookWrite(s, StepCall(v, input));
    var s1 := Apply(s, Step(p, input));
    RunThree(s, Step(p, input), Tick(nap), Tick(ms));
  }

  lemma RunThree(s: State, a: Event, b: Event, c: Event)
    ensures Run(s, [a, b, c]) == Apply(Apply(Apply(s, a), b), c)
  {
    hide Apply;
    assert [a, b, c][1..] == [b, c] && [b, c][1..] == [c];
    assert Run(Apply(Apply(s, a), b), [c]) == Run(Apply(Apply(Apply(s, a), b), c), []);
  }

  lemma RankForgets(v: View)
    ensures Rank(Forget(v)) == Rank(v)
  {
  }

  lemma OverStays(v: View, input: Input)
    requires Over(v.proc.pc)
    ensures StepCall(v, input) == v
  {
  }

  /** Alone, a call answers within as many turns as its rank. */
  lemma {:induction false} ComesToAnEnd(s: State, p: Pid, out: Bytes, times: seq<nat>)
    requires p in s.procs && InTime(s.procs[p].pc, s.clock) && Rank(Look(s, p)) <= |times|
    ensures var t := Run(s, Turns(s, p, out, times)); p in t.procs && Over(t.procs[p].pc)
    ensures s.procs[p].pc.Crashed? <==> Run(s, Turns(s, p, out, times)).procs[p].pc.Crashed?
    decreases |times|
  {
    hide Rank, StepCall, InTime, Answer;
    var v := Look(s, p);
    RankZero(v);
    if times != [] {
      var turn := Turn(p, Answer(v, out), if Sleeps(v) then NAP else 0, times[0]);
      var w, t := Woken(v, StepCall(v, Answer(v, out))), Run(s, turn);
      TurnIs(s, p, out, times[0]);
      if Over(v.proc.pc) {
        OverStays(v, Answer(v, out));
        OverIsLast(t, p);
      } else {
        RankDrops(v, out);
        RankLater(w, times[0]);
        RankForgets(w.(clock := w.clock + times[0]));
      }
      StepGoesOn(v, Answer(v, out));
      StillInTime(w.proc.pc, v.clock, t.clock - v.clock);
      ComesToAnEnd(t, p, out, times[1..]);
      RunAppend(s, turn, Turns(t, p, out, times[1..]));
    }
  }

  lemma OverIsLast(s: State, p: Pid)
    requires p in s.procs && Over(s.procs[p].pc)
    ensures Rank(Look(s, p)) == 0
  {
  }

  // ---- every call, from every reachable state ----

  ghost predicate AllInTime(s: State) { forall p :: p in s.procs ==> InTime(s.procs[p].pc, s.clock) }

  lemma ApplyInTime(s: State, e: Event)
    requires AllInTime(s)
    ensures AllInTime(Apply(s, e))
  {
    hide InTime, StepCall, With, At;
    match e
    case Step(p, input) =>
      if p in s.procs {
        StepGoesOn(Look(s, p), input);
      }
    case Tick(ms) =>
      forall p | p in s.procs ensures InTime(s.procs[p].pc, s.clock + ms) { StillInTime(s.procs[p].pc, s.clock, ms); }
    case Crash(p) => assert InTime(Crashed, s.clock) by { CrashedInTime(s.clock); }
    case _ =>
  }

  lemma CrashedInTime(clock: nat)
    ensures InTime(Crashed, clock)
  {
  }

  lemma {:induction false} RunInTime(s: State, events: seq<Event>)
    requires AllInTime(s)
    ensures AllInTime(Run(s, events))
    decreases |events|
  {
    hide AllInTime, Apply;
    if events != [] {
      ApplyInTime(s, events[0]);
      RunInTime(Apply(s, events[0]), events[1..]);
    }
  }

  const TURNS := FIRST + 3

  lemma RankBounded(v: View)
    requires InTime(v.proc.pc, v.clock)
    ensures Rank(v) <= TURNS
  {
  }

  /**
   * From every reachable state, however it was reached: a call that has not crashed, wherever it stands, comes to its
   * answer within a fixed number of turns once it is let run alone, however much time goes by between them.
   */
  lemma EveryCallAnswers(s: State, events: seq<Event>, p: Pid, out: Bytes, times: seq<nat>)
    requires Init(s) && p in Run(s, events).procs && !Run(s, events).procs[p].pc.Crashed? && |times| >= TURNS
    ensures var t := Run(s, events);
            var u := Run(t, Turns(t, p, out, times));
            p in u.procs && u.procs[p].pc.Done?
  {
    hide Run, Turns, Rank;
    RunInTime(s, events);
    var t := Run(s, events);
    RankBounded(Look(t, p));
    ComesToAnEnd(t, p, out, times);
  }

  // ---- with the lock in hand, the answer is not a failure ----

  /** Inside the lock and not failing, with the place for the entry cleared once it is to be filled. */
  predicate Promising(v: View) {
    match v.proc.pc
    case ReadRecord(site) => site.Locked?
    case StatBinary(site, _) => site.Locked?
    case ReadBinary(site, _) => site.Locked?
    case ClearEntry => true
    case MakeStage => v.entry.None?
    case Compile => v.entry.None?
    case ReadCandidate => v.entry.None? && v.proc.stage.Some? && v.proc.stage.value.binary.Some?
    case Chmod(_) => v.entry.None? && v.proc.stage.Some? && v.proc.stage.value.binary.Some?
    case WriteRecord(_) => v.entry.None? && v.proc.stage.Some?
    case RenameStage(_) => v.entry.None? && v.proc.stage.Some?
    case Publish(_, outcome, locked) => locked && outcome != Failed
    case Release(outcome) => outcome != Failed
    case Done(outcome) => outcome != Failed
    case _ => false
  }

  lemma PromiseKept(v: View, out: Bytes)
    requires Promising(v)
    ensures Promising(StepCall(v, Answer(v, out)))
  {
    hide StepLock;
    if Locking(v.proc.pc) { ReleaseKept(v, out); }
    else if v.proc.pc.Publish? { assert v.proc.pc.bytes[..|v.proc.pc.bytes|] == v.proc.pc.bytes; }
  }

  lemma ReleaseKept(v: View, out: Bytes)
    requires Promising(v) && Locking(v.proc.pc)
    ensures Promising(StepLock(v, Answer(v, out)))
  {
  }

  lemma PromisingForgets(v: View, clock: nat)
    ensures Promising(Forget(v.(clock := clock))) <==> Promising(v)
  {
  }

  lemma {:induction false} ComesToAnAnswer(s: State, p: Pid, out: Bytes, times: seq<nat>)
    requires p in s.procs && Promising(Look(s, p))
    ensures var t := Run(s, Turns(s, p, out, times)); p in t.procs && Promising(Look(t, p))
    decreases |times|
  {
    hide Promising, StepCall, Answer, Look;
    if times != [] {
      var v := Look(s, p);
      var turn := Turn(p, Answer(v, out), if Sleeps(v) then NAP else 0, times[0]);
      var w, t := Woken(v, StepCall(v, Answer(v, out))), Run(s, turn);
      TurnIs(s, p, out, times[0]);
      PromiseKept(v, out);
      PromisingForgets(StepCall(v, Answer(v, out)), w.clock + times[0]);
      ComesToAnAnswer(t, p, out, times[1..]);
      RunAppend(s, turn, Turns(t, p, out, times[1..]));
    }
  }

  lemma InsideIsPromising(s: State, p: Pid)
    requires Safe(s) && Cleared(s) && p in s.procs && Critical(s.procs[p].pc) && !Failing(s.procs[p].pc)
    ensures Promising(Look(s, p))
  {
    assert ProcSafe(s.procs[p], s.produced, p in s.delivered);
    assert NothingThere(s.procs[p].pc, At(s.entries, s.procs[p].key));
  }

  /**
   * In a run in which no working call was robbed of its lock, whatever else crashed, was damaged or failed: a call
   * inside the lock that is not already failing, let run alone, says hit or miss.
   */
  lemma InsideSucceeds(s: State, events: seq<Event>, p: Pid, out: Bytes, times: seq<nat>)
    requires Init(s) && Harmless(s, events) && |times| >= TURNS
    requires p in Run(s, events).procs && Critical(Run(s, events).procs[p].pc) && !Failing(Run(s, events).procs[p].pc)
    ensures var t := Run(s, events);
            var u := Run(t, Turns(t, p, out, times));
            p in u.procs && u.procs[p].pc.Done? && u.procs[p].pc.outcome != Failed
  {
    hide Run, Turns, Harmless;
    InitSafe(s);
    RunSafe(s, events);
    RunCleared(s, events);
    var t := Run(s, events);
    InsideIsPromising(t, p);
    ComesToAnAnswer(t, p, out, times);
    EveryCallAnswers(s, events, p, out, times);
  }
}
