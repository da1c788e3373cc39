/** The verified compile cache: any number of `compileCached` calls over one shared directory. */
module CompileCache {
  import opened Options

  type Bytes = seq<nat>
  type Key = nat
  type Path = nat
  type Pid = nat

  /** SHA-256 taken as injective: a digest is worth the bytes it was taken of. */
  datatype Digest = Sha256(preimage: Bytes)

  datatype Record = Record(key: Key, hash: Digest, size: nat)
  datatype File = File(bytes: Bytes, executable: bool)

  /** A cache directory: `sprout` and `cache.json`. */
  datatype Dir = Dir(binary: Option<File>, record: Option<Record>)

  /** The lock directory; `owner` is history that no call can see. */
  datatype Lock = Lock(mtime: nat, owner: Pid)

  const DEADLINE := 12 * 60_000
  const STALE := 15 * 60_000

  /** Where `verified` was called from. */
  datatype Site = Entry | Waiting(deadline: nat) | Locked

  datatype Outcome = Hit | Miss | Failed

  /** One constructor per system call that is about to be made. */
  datatype Pc =
    | ReadRecord(site: Site)
    | StatBinary(site: Site, record: Record)
    | ReadBinary(site: Site, record: Record)
    | MakeRoot
    | TryLock(deadline: nat)
    | StatLock(deadline: nat)
    | JudgeLock(deadline: nat, mtime: nat)
    | StealLock(deadline: nat)
    | ClearEntry
    | MakeStage
    | Compile
    | ReadCandidate
    | Chmod(bytes: Bytes)
    | WriteRecord(bytes: Bytes)
    | RenameStage(bytes: Bytes)
    | Publish(bytes: Bytes, outcome: Outcome, locked: bool)
    | RemoveStage
    | Release(outcome: Outcome)
    | Done(outcome: Outcome)
    | Crashed

  /** A call, its private staging directory and its private temporary output file. */
  datatype Proc = Proc(key: Key, out: Path, pc: Pc, stage: Option<Dir>, tmp: Option<Bytes>, compiled: bool)

  datatype State = State(
    clock: nat,
    entries: map<Key, Dir>,
    locks: map<Key, Lock>,
    outs: map<Path, Bytes>,
    procs: map<Pid, Proc>,
    produced: set<(Key, Bytes)>,
    delivered: map<Pid, Bytes>)

  /** What the world answers a system call with; `Piece` is one part of a call that is not atomic. */
  datatype Input = Ok | Error | Output(bytes: Bytes) | Piece(n: nat)

  datatype Event =
    | Step(pid: Pid, input: Input)
    | Tick(ms: nat)
    | Corrupt(key: Key, binary: Option<File>)
    | Crash(pid: Pid)

  /** All one call can see and touch in a step: the shared directories of its key, and itself. */
  datatype View = View(
    clock: nat,
    pid: Pid,
    proc: Proc,
    entry: Option<Dir>,
    lock: Option<Lock>,
    made: Option<Bytes>,
    delivered: Option<Bytes>)

  // ---- one step of one call ----

  function Goto(v: View, pc: Pc): View { v.(proc := v.proc.(pc := pc)) }

  /** `verified` answered null: go on from where it was called. */
  function Unverified(v: View, site: Site): View {
    match site
    case Entry => Goto(v, MakeRoot)
    case Waiting(deadline) => Goto(v, if v.clock > deadline then Done(Failed) else StatLock(deadline))
    case Locked => Goto(v, ClearEntry)
  }

  /** The `finally` of a locked call that threw. */
  function Throw(v: View): View { Goto(v, if v.proc.stage.Some? then RemoveStage else Release(Failed)) }

  function StepVerify(v: View, input: Input): View {
    match v.proc.pc
    case ReadRecord(site) =>
      if input == Ok && v.entry.Some? && v.entry.value.record.Some? && v.entry.value.record.value.key == v.proc.key then
        Goto(v, StatBinary(site, v.entry.value.record.value))
      else Unverified(v, site)
    case StatBinary(site, record) =>
      if input == Ok && v.entry.Some? && v.entry.value.binary.Some?
         && v.entry.value.binary.value.executable && |v.entry.value.binary.value.bytes| == record.size then
        Goto(v, ReadBinary(site, record))
      else Unverified(v, site)
    case ReadBinary(site, record) =>
      var read := if input.Output? then Some(input.bytes)
                  else if input == Ok && v.entry.Some? && v.entry.value.binary.Some? then
                    Some(v.entry.value.binary.value.bytes)
                  else None;
      if read.Some? && Sha256(read.value) == record.hash then Goto(v, Publish(read.value, Hit, site == Locked))
      else Unverified(v, site)
    case _ => v
  }

  function StepLock(v: View, input: Input): View {
    match v.proc.pc
    case MakeRoot => Goto(v, if input == Error then Done(Failed) else TryLock(v.clock + DEADLINE))
    case TryLock(deadline) =>
      if input == Error then Goto(v, Done(Failed))
      else if v.lock.Some? then Goto(v, ReadRecord(Waiting(deadline)))
      else Goto(v.(lock := Some(Lock(v.clock, v.pid))), ReadRecord(Locked))
    case StatLock(deadline) =>
      Goto(v, if input != Error && v.lock.Some? then JudgeLock(deadline, v.lock.value.mtime) else TryLock(deadline))
    case JudgeLock(deadline, mtime) =>
      Goto(v, if v.clock - mtime > STALE then StealLock(deadline) else TryLock(deadline))
    case StealLock(deadline) =>
      if input == Error then Goto(v, Done(Failed)) else Goto(v.(lock := None), TryLock(deadline))
    case Release(outcome) =>
      if input == Error then Goto(v, Done(Failed)) else Goto(v.(lock := None), Done(outcome))
    case _ => v
  }

  predicate Bare(entry: Option<Dir>) { entry.None? || (entry.value.binary.None? && entry.value.record.None?) }

  function StepClean(v: View, input: Input): View {
    match v.proc.pc
    case ClearEntry =>
      if input.Piece? then
        if v.entry.None? then v
        else v.(entry := Some(if input.n == 0 then v.entry.value.(binary := None) else v.entry.value.(record := None)))
      else if input == Error || !Bare(v.entry) then Throw(v)
      else Goto(v.(entry := None), MakeStage)
    case RemoveStage =>
      if input == Error then Goto(v, Done(Failed)) else v.(proc := v.proc.(pc := Release(Failed), stage := None))
    case _ => v
  }

  function StepBuild(v: View, input: Input): View {
    var proc := v.proc;
    match proc.pc
    case MakeStage =>
      if input == Error then Throw(v) else v.(proc := proc.(pc := Compile, stage := Some(Dir(None, None))))
    case Compile =>
      if !input.Output? then Throw(v)
      else v.(made := Some(input.bytes),
              proc := proc.(pc := ReadCandidate, compiled := true,
                            stage := Some(Dir(Some(File(input.bytes, false)), None))))
    case ReadCandidate =>
      if input == Error || proc.stage.None? || proc.stage.value.binary.None? then Throw(v)
      else Goto(v, Chmod(proc.stage.value.binary.value.bytes))
    case Chmod(bytes) =>
      if input == Error || proc.stage.None? || proc.stage.value.binary.None? then Throw(v)
      else
        var file := proc.stage.value.binary.value.(executable := true);
        v.(proc := proc.(pc := WriteRecord(bytes), stage := Some(proc.stage.value.(binary := Some(file)))))
    case WriteRecord(bytes) =>
      if input == Error || proc.stage.None? then Throw(v)
      else
        var record := Record(proc.key, Sha256(bytes), |bytes|);
        v.(proc := proc.(pc := RenameStage(bytes), stage := Some(proc.stage.value.(record := Some(record)))))
    case RenameStage(bytes) =>
      if input == Error || proc.stage.None? || !Bare(v.entry) then Throw(v)
      else v.(entry := proc.stage, proc := proc.(pc := Publish(bytes, Miss, true), stage := None))
    case _ => v
  }

  /** Writing the output beside its path, piece by piece, and renaming it into place. */
  function StepPublish(v: View, input: Input): View {
    var proc := v.proc;
    match proc.pc
    case Publish(bytes, outcome, locked) =>
      if input.Piece? then
        if input.n <= |bytes| then v.(proc := proc.(tmp := Some(bytes[..input.n]))) else v
      else if input == Error || proc.tmp.None? || |proc.tmp.value| != |bytes| then
        v.(proc := proc.(pc := if locked then Release(Failed) else Done(Failed), tmp := None))
      else
        v.(delivered := proc.tmp,
           proc := proc.(pc := if locked then Release(outcome) else Done(outcome), tmp := None))
    case _ => v
  }

  predicate Verifying(pc: Pc) { pc.ReadRecord? || pc.StatBinary? || pc.ReadBinary? }

  predicate Locking(pc: Pc) {
    pc.MakeRoot? || pc.TryLock? || pc.StatLock? || pc.JudgeLock? || pc.StealLock? || pc.Release?
  }

  predicate Cleaning(pc: Pc) { pc.ClearEntry? || pc.RemoveStage? }

  function StepCall(v: View, input: Input): View {
    if Verifying(v.proc.pc) then StepVerify(v, input)
    else if Locking(v.proc.pc) then StepLock(v, input)
    else if v.proc.pc.Publish? then StepPublish(v, input)
    else if Cleaning(v.proc.pc) then StepClean(v, input)
    else StepBuild(v, input)
  }

  // ---- one step of the whole system ----

  function Look(s: State, p: Pid): View
    requires p in s.procs
  {
    View(s.clock, p, s.procs[p], At(s.entries, s.procs[p].key), At(s.locks, s.procs[p].key), None, None)
  }

  function Write(s: State, v: View): State {
    var key := v.proc.key;
    State(
      s.clock,
      With(s.entries, key, v.entry),
      With(s.locks, key, v.lock),
      if v.delivered.Some? then s.outs[v.proc.out := v.delivered.value] else s.outs,
      s.procs[v.pid := v.proc],
      if v.made.Some? then s.produced + {(key, v.made.value)} else s.produced,
      if v.delivered.Some? then s.delivered[v.pid := v.delivered.value] else s.delivered)
  }

  function Apply(s: State, e: Event): State {
    match e
    case Tick(ms) => s.(clock := s.clock + ms)
    case Corrupt(key, binary) =>
      if key in s.entries then s.(entries := s.entries[key := s.entries[key].(binary := binary)]) else s
    case Crash(p) =>
      if p in s.procs && !s.procs[p].pc.Done? then s.(procs := s.procs[p := s.procs[p].(pc := Crashed)]) else s
    case Step(p, input) => if p in s.procs then Write(s, StepCall(Look(s, p), input)) else s
  }

  /** A run is any sequence of events, in any order the scheduler likes. */
  function Run(s: State, events: seq<Event>): State
    decreases |events|
  {
    if events == [] then s else Run(Apply(s, events[0]), events[1..])
  }

  /** Nothing stored yet, every call about to start. */
  ghost predicate Init(s: State) {
    && s.entries == map[] && s.locks == map[] && s.outs == map[] && s.produced == {} && s.delivered == map[]
    && forall p :: p in s.procs ==>
         && s.procs[p].pc == ReadRecord(Entry) && s.procs[p].stage == None
         && s.procs[p].tmp == None && !s.procs[p].compiled
  }

  /** The check that an entry may be used, made at one instant. */
  predicate Usable(key: Key, entry: Option<Dir>) {
    && entry.Some? && entry.value.record.Some? && entry.value.binary.Some?
    && var record, file := entry.value.record.value, entry.value.binary.value;
    record.key == key && file.executable && |file.bytes| == record.size && record.hash == Sha256(file.bytes)
  }

  // ---- content safety ----

  predicate StageOk(proc: Proc, bytes: Bytes) {
    proc.stage.Some? && proc.stage.value.binary.Some? && proc.stage.value.binary.value.bytes == bytes
  }

  /** What a call holds at each point was produced by a compile for its own key. */
  predicate ProcSafe(proc: Proc, produced: set<(Key, Bytes)>, delivered: bool) {
    && (proc.tmp.Some? ==> proc.pc.Publish? || proc.pc.Crashed?)
    && match proc.pc
       case StatBinary(_, record) => record.key == proc.key && (proc.key, record.hash.preimage) in produced
       case ReadBinary(_, record) => record.key == proc.key && (proc.key, record.hash.preimage) in produced
       case ReadCandidate =>
         && proc.stage.Some? && proc.stage.value.binary.Some?
         && (proc.key, proc.stage.value.binary.value.bytes) in produced
       case Chmod(bytes) => StageOk(proc, bytes) && (proc.key, bytes) in produced
       case WriteRecord(bytes) => StageOk(proc, bytes) && (proc.key, bytes) in produced
       case RenameStage(bytes) =>
         && StageOk(proc, bytes) && (proc.key, bytes) in produced
         && proc.stage.value.record == Some(Record(proc.key, Sha256(bytes), |bytes|))
       case Publish(bytes, _, _) =>
         (proc.key, bytes) in produced
         && (proc.tmp.Some? ==> |proc.tmp.value| <= |bytes| && proc.tmp.value == bytes[..|proc.tmp.value|])
       case Release(outcome) => outcome != Failed ==> delivered
       case Done(outcome) => outcome != Failed ==> delivered
       case _ => true
  }

  predicate EntrySafe(key: Key, entry: Option<Dir>, produced: set<(Key, Bytes)>) {
    entry.Some? && entry.value.record.Some? ==>
      entry.value.record.value.key == key && (key, entry.value.record.value.hash.preimage) in produced
  }

  /** What stands at an output path is, whole, what some call delivered there. */
  ghost predicate OutSafe(s: State, path: Path)
    requires path in s.outs
  {
    exists p :: p in s.delivered && p in s.procs && s.procs[p].out == path && s.delivered[p] == s.outs[path]
  }

  ghost predicate Safe(s: State) {
    && (forall p :: p in s.procs ==> ProcSafe(s.procs[p], s.produced, p in s.delivered))
    && (forall key :: key in s.entries ==> EntrySafe(key, Some(s.entries[key]), s.produced))
    && (forall p :: p in s.delivered ==> p in s.procs && (s.procs[p].key, s.delivered[p]) in s.produced)
    && (forall path :: path in s.outs ==> OutSafe(s, path))
  }

  function Produced(v: View, produced: set<(Key, Bytes)>): set<(Key, Bytes)> {
    if v.made.Some? then produced + {(v.proc.key, v.made.value)} else produced
  }

  ghost predicate ViewSafe(v: View, produced: set<(Key, Bytes)>, delivered: bool) {
    && ProcSafe(v.proc, Produced(v, produced), delivered || v.delivered.Some?)
    && EntrySafe(v.proc.key, v.entry, Produced(v, produced))
    && (v.delivered.Some? ==> (v.proc.key, v.delivered.value) in Produced(v, produced))
  }

  ghost predicate StepKeeps(v: View, v': View, produced: set<(Key, Bytes)>, delivered: bool) {
    && ViewSafe(v', produced, delivered)
    && v'.pid == v.pid && v'.clock == v.clock && v'.proc.key == v.proc.key && v'.proc.out == v.proc.out
  }

  ghost predicate FreshView(v: View, produced: set<(Key, Bytes)>, delivered: bool) {
    v.made.None? && v.delivered.None? && ViewSafe(v, produced, delivered)
  }

  lemma StepVerifySafe(v: View, input: Input, produced: set<(Key, Bytes)>, delivered: bool)
    requires FreshView(v, produced, delivered) && Verifying(v.proc.pc)
    ensures StepKeeps(v, StepVerify(v, input), produced, delivered)
  {
  }

  lemma StepLockSafe(v: View, input: Input, produced: set<(Key, Bytes)>, delivered: bool)
    requires FreshView(v, produced, delivered) && Locking(v.proc.pc)
    ensures StepKeeps(v, StepLock(v, input), produced, delivered)
  {
  }

  lemma StepPublishSafe(v: View, input: Input, produced: set<(Key, Bytes)>, delivered: bool)
    requires FreshView(v, produced, delivered) && v.proc.pc.Publish?
    ensures StepKeeps(v, StepPublish(v, input), produced, delivered)
  {
    if v.proc.tmp.Some? && |v.proc.tmp.value| == |v.proc.pc.bytes| {
      assert v.proc.tmp.value == v.proc.pc.bytes;
    }
  }

  lemma StepCleanSafe(v: View, input: Input, produced: set<(Key, Bytes)>, delivered: bool)
    requires FreshView(v, produced, delivered) && Cleaning(v.proc.pc)
    ensures StepKeeps(v, StepClean(v, input), produced, delivered)
  {
  }

  lemma StepRenameSafe(v: View, input: Input, produced: set<(Key, Bytes)>, delivered: bool)
    requires FreshView(v, produced, delivered) && v.proc.pc.RenameStage?
    ensures StepKeeps(v, StepBuild(v, input), produced, delivered)
  {
  }

  lemma StepBuildSafe(v: View, input: Input, produced: set<(Key, Bytes)>, delivered: bool)
    requires FreshView(v, produced, delivered)
    requires !Verifying(v.proc.pc) && !Locking(v.proc.pc) && !v.proc.pc.Publish? && !Cleaning(v.proc.pc)
    ensures StepKeeps(v, StepBuild(v, input), produced, delivered)
  {
    if v.proc.pc.RenameStage? { StepRenameSafe(v, input, produced, delivered); }
  }

  /** One step of a call keeps what it holds, and what it leaves behind, safe. */
  lemma StepSafe(v: View, input: Input, produced: set<(Key, Bytes)>, delivered: bool)
    requires FreshView(v, produced, delivered)
    ensures StepKeeps(v, StepCall(v, input), produced, delivered)
  {
    hide FreshView, StepKeeps, StepVerify, StepLock, StepPublish, StepClean, StepBuild;
    if Verifying(v.proc.pc) { StepVerifySafe(v, input, produced, delivered); }
    else if Locking(v.proc.pc) { StepLockSafe(v, input, produced, delivered); }
    else if v.proc.pc.Publish? { StepPublishSafe(v, input, produced, delivered); }
    else if Cleaning(v.proc.pc) { StepCleanSafe(v, input, produced, delivered); }
    else { StepBuildSafe(v, input, produced, delivered); }
  }

  lemma ProcSafeGrows(proc: Proc, produced: set<(Key, Bytes)>, more: set<(Key, Bytes)>, delivered: bool)
    requires ProcSafe(proc, produced, delivered) && produced <= more
    ensures ProcSafe(proc, more, delivered)
  {
  }

  lemma EntrySafeGrows(key: Key, entry: Option<Dir>, produced: set<(Key, Bytes)>, more: set<(Key, Bytes)>)
    requires EntrySafe(key, entry, produced) && produced <= more
    ensures EntrySafe(key, entry, more)
  {
  }

  lemma WriteSafe(s: State, v: View)
    requires Safe(s) && v.pid in s.procs && ViewSafe(v, s.produced, v.pid in s.delivered)
    requires v.proc.key == s.procs[v.pid].key && v.proc.out == s.procs[v.pid].out
    ensures Safe(Write(s, v))
  {
    hide ProcSafe, EntrySafe, OutSafe;
    var s' := Write(s, v);
    forall q | q in s'.procs ensures ProcSafe(s'.procs[q], s'.produced, q in s'.delivered) {
      if q != v.pid { ProcSafeGrows(s.procs[q], s.produced, s'.produced, q in s.delivered); }
    }
    forall key | key in s'.entries ensures EntrySafe(key, Some(s'.entries[key]), s'.produced) {
      if key != v.proc.key { EntrySafeGrows(key, Some(s.entries[key]), s.produced, s'.produced); }
    }
    forall path | path in s'.outs ensures OutSafe(s', path) { WriteOutSafe(s, v, path); }
  }

  lemma WriteOutSafe(s: State, v: View, path: Path)
    requires v.pid in s.procs && path in Write(s, v).outs
    requires v.proc.key == s.procs[v.pid].key && v.proc.out == s.procs[v.pid].out
    requires path in s.outs ==> OutSafe(s, path)
    ensures OutSafe(Write(s, v), path)
  {
    hide With;
    var s' := Write(s, v);
    if path in s.outs && (v.delivered.None? || path != v.proc.out) {
      var q :| q in s.delivered && q in s.procs && s.procs[q].out == path && s.delivered[q] == s.outs[path];
      assert q in s'.delivered && s'.procs[q].out == path && s'.delivered[q] == s'.outs[path];
    } else {
      assert v.pid in s'.delivered && s'.procs[v.pid].out == path && s'.delivered[v.pid] == s'.outs[path];
    }
  }

  lemma OutKept(s: State, s': State, path: Path)
    requires path in s.outs && OutSafe(s, path)
    requires s'.delivered == s.delivered && s'.outs == s.outs
    requires forall p :: p in s.procs ==> p in s'.procs && s'.procs[p].out == s.procs[p].out
    ensures OutSafe(s', path)
  {
  }

  lemma CorruptStateSafe(s: State, key: Key, binary: Option<File>)
    requires Safe(s)
    ensures Safe(Apply(s, Corrupt(key, binary)))
  {
    hide ProcSafe, EntrySafe, OutSafe;
    var s' := Apply(s, Corrupt(key, binary));
    forall path | path in s'.outs ensures OutSafe(s', path) { OutKept(s, s', path); }
    if key in s.entries { CorruptSafe(key, s.entries[key], binary, s.produced); }
  }

  lemma CrashStateSafe(s: State, p: Pid)
    requires Safe(s)
    ensures Safe(Apply(s, Crash(p)))
  {
    hide ProcSafe, EntrySafe, OutSafe;
    var s' := Apply(s, Crash(p));
    forall path | path in s'.outs ensures OutSafe(s', path) { OutKept(s, s', path); }
    if p in s.procs { CrashSafe(s.procs[p], s.produced, p in s.delivered); }
  }

  lemma TickStateSafe(s: State, ms: nat)
    requires Safe(s)
    ensures Safe(Apply(s, Tick(ms)))
  {
    hide ProcSafe, EntrySafe, OutSafe;
    var s' := Apply(s, Tick(ms));
    forall path | path in s'.outs ensures OutSafe(s', path) { OutKept(s, s', path); }
  }

  lemma CorruptSafe(key: Key, dir: Dir, binary: Option<File>, produced: set<(Key, Bytes)>)
    requires EntrySafe(key, Some(dir), produced)
    ensures EntrySafe(key, Some(dir.(binary := binary)), produced)
  {
  }

  lemma CrashSafe(proc: Proc, produced: set<(Key, Bytes)>, delivered: bool)
    ensures ProcSafe(proc.(pc := Crashed), produced, delivered)
  {
  }

  lemma LookSafe(s: State, p: Pid)
    requires Safe(s) && p in s.procs
    ensures FreshView(Look(s, p), s.produced, p in s.delivered)
  {
    hide ProcSafe;
  }

  lemma ApplySafe(s: State, e: Event)
    requires Safe(s)
    ensures Safe(Apply(s, e))
  {
    hide ProcSafe, EntrySafe, StepCall, OutSafe;
    match e
    case Tick(ms) => TickStateSafe(s, ms);
    case Corrupt(key, binary) => CorruptStateSafe(s, key, binary);
    case Crash(p) => CrashStateSafe(s, p);
    case Step(p, input) =>
      if p in s.procs {
        var v := Look(s, p);
        LookSafe(s, p);
        StepSafe(v, input, s.produced, p in s.delivered);
        WriteSafe(s, StepCall(v, input));
      }
  }

  /** Whatever the schedule, the crashes, the stolen locks, the half-done deletes and the corruption. */
  lemma {:induction false} RunSafe(s: State, events: seq<Event>)
    requires Safe(s)
    ensures Safe(Run(s, events))
    decreases |events|
  {
    hide Safe, Apply;
    if events != [] {
      ApplySafe(s, events[0]);
      RunSafe(Apply(s, events[0]), events[1..]);
    }
  }

  lemma InitSafe(s: State)
    requires Init(s)
    ensures Safe(s)
  {
  }

  /** A call that succeeded delivered bytes that a completed compile for its own key produced, and nothing
      else ever stands at an output path. */
  lemma ContentSafety(s: State, events: seq<Event>)
    requires Init(s)
    ensures var t := Run(s, events);
            && (forall p :: p in t.procs && t.procs[p].pc.Done? && t.procs[p].pc.outcome != Failed ==>
                  p in t.delivered && (t.procs[p].key, t.delivered[p]) in t.produced)
            && (forall path :: path in t.outs ==>
                  exists p :: p in t.procs && p in t.delivered && t.procs[p].out == path
                              && t.outs[path] == t.delivered[p] && (t.procs[p].key, t.outs[path]) in t.produced)
  {
    hide Run;
    InitSafe(s);
    RunSafe(s, events);
    var t := Run(s, events);
    forall path | path in t.outs
      ensures exists p :: p in t.procs && p in t.delivered && t.procs[p].out == path
                          && t.outs[path] == t.delivered[p] && (t.procs[p].key, t.outs[path]) in t.produced
    {
      assert OutSafe(t, path);
    }
    forall p | p in t.procs && t.procs[p].pc.Done? && t.procs[p].pc.outcome != Failed ensures p in t.delivered {
      assert ProcSafe(t.procs[p], t.produced, p in t.delivered);
    }
  }
}
