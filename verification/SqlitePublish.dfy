/** The two-file publish of the SQLite cache: the payload is renamed into place first, its manifest second. */
module SqlitePublish {
  import opened Options

  type Bytes = seq<nat>
  type Slot = nat
  type Pid = nat

  /** SHA-256 taken as injective. */
  datatype Digest = Sha256(preimage: Bytes)

  /** What a payload was made from, all of which its manifest records. */
  datatype Recipe =
    | Source(archive: Digest)
    | Object(source: Digest, target: string, command: seq<string>, flags: seq<string>)

  datatype Manifest = Manifest(recipe: Recipe, hash: Digest)

  const DEADLINE := 30_000
  const STALE := 5 * 60_000
  const NAP := 25

  /** One constructor per system call that is about to be made; `locked` tells the two cache checks apart. */
  datatype Pc =
    | DigestSource
    | ReadManifest(locked: bool)
    | ReadPayload(locked: bool, manifest: Manifest)
    | MakeRoot
    | TryLock(deadline: nat)
    | StatLock(deadline: nat)
    | JudgeLock(deadline: nat, mtime: nat)
    | StealLock(deadline: nat)
    | Sleep(deadline: nat, until: nat)
    | Compile
    | Download
    | Unpack(archive: Bytes)
    | DigestStage(bytes: Bytes)
    | WriteManifest(bytes: Bytes, hash: Digest)
    | RenamePayload(bytes: Bytes, manifest: Manifest)
    | RenameManifest(bytes: Bytes, manifest: Manifest)
    | RemoveStage(ok: bool)
    | Release(ok: bool)
    | Returned
    | Failed
    | Crashed

  /** `accepted` are the bytes the call answers for; `built` says it made them itself; `clean` says that nothing
      else has touched the two files since its own first rename. All three are history. */
  datatype Builder = Builder(
    slot: Slot, recipe: Recipe, pc: Pc, accepted: Option<Bytes>, built: bool, clean: bool)

  /** `credited` pairs what a compiler or an archive gave with the recipe of the call that asked for it; `produced`
      pairs it with what it was really made from. Both are history. */
  datatype State = State(
    clock: nat,
    payloads: map<Slot, Bytes>,
    manifests: map<Slot, Manifest>,
    locks: map<Slot, nat>,
    builders: map<Pid, Builder>,
    credited: set<(Recipe, Bytes)>,
    produced: set<(Recipe, Bytes)>)

  datatype Input = Ok | Error | Output(bytes: Bytes)

  datatype Event =
    | Step(pid: Pid, input: Input)
    | Tick(ms: nat)
    | Corrupt(slot: Slot, payload: Option<Bytes>)
    | Crash(pid: Pid)

  /** Where the source file is, whose digest an object's recipe names. */
  const SOURCE: Slot := 0

  /** The part of the system that one builder touches, and the source file, which it reads. */
  datatype View = View(
    clock: nat,
    source: Option<Bytes>,
    builder: Builder,
    payload: Option<Bytes>,
    manifest: Option<Manifest>,
    lock: Option<nat>,
    made: Option<(Recipe, Bytes)>)

  function Goto(v: View, pc: Pc): View { v.(builder := v.builder.(pc := pc)) }

  /** A call for an object first digests the source file as it is. */
  function StepDigest(v: View, input: Input): View {
    if v.builder.pc.DigestSource? && input == Ok && v.source.Some? && v.builder.recipe.Object? then
      v.(builder := v.builder.(pc := ReadManifest(false),
                               recipe := v.builder.recipe.(source := Sha256(v.source.value))))
    else if v.builder.pc.DigestSource? then Goto(v, Failed)
    else v
  }

  /** The first step of making what a recipe asks for. */
  function Making(recipe: Recipe): Pc { if recipe.Object? then Compile else Download }

  function Invalid(v: View, locked: bool): View { Goto(v, if locked then Making(v.builder.recipe) else MakeRoot) }

  function StepCheck(v: View, input: Input): View {
    match v.builder.pc
    case ReadManifest(locked) =>
      if input == Ok && v.manifest.Some? && v.manifest.value.recipe == v.builder.recipe then
        Goto(v, ReadPayload(locked, v.manifest.value))
      else Invalid(v, locked)
    case ReadPayload(locked, manifest) =>
      var read := if input.Output? then Some(input.bytes) else if input == Ok then v.payload else None;
      if read.Some? && Sha256(read.value) == manifest.hash then
        v.(builder := v.builder.(pc := if locked then Release(true) else Returned, accepted := read))
      else Invalid(v, locked)
    case _ => v
  }

  function Nap(v: View, deadline: nat): Pc { Sleep(deadline, v.clock + NAP) }

  function StepLock(v: View, input: Input): View {
    match v.builder.pc
    case MakeRoot => Goto(v, if input == Error then Failed else TryLock(v.clock + DEADLINE))
    case TryLock(deadline) =>
      if input != Error && v.lock.None? then Goto(v.(lock := Some(v.clock)), ReadManifest(true))
      else Goto(v, if v.clock > deadline then Failed else StatLock(deadline))
    case StatLock(deadline) =>
      Goto(v, if input != Error && v.lock.Some? then JudgeLock(deadline, v.lock.value) else Nap(v, deadline))
    case JudgeLock(deadline, mtime) =>
      Goto(v, if v.clock - mtime > STALE then StealLock(deadline) else Nap(v, deadline))
    case StealLock(deadline) => Goto(if input == Error then v else v.(lock := None), Nap(v, deadline))
    case Sleep(deadline, until) => Goto(v, if v.clock >= until then TryLock(deadline) else v.builder.pc)
    case Release(ok) =>
      if input == Error then Goto(v, Failed) else Goto(v.(lock := None), if ok then Returned else Failed)
    case _ => v
  }

  /** The staged output is recorded with what it was really made from. */
  function Made(v: View, from: Recipe, bytes: Bytes): View { Goto(v.(made := Some((from, bytes))), DigestStage(bytes)) }

  function StepMake(v: View, input: Input): View {
    var b := v.builder;
    match b.pc
    case Compile =>
      // the compiler reads the source file as it is by then
      if input.Output? && v.source.Some? && b.recipe.Object? then
        Made(v, b.recipe.(source := Sha256(v.source.value)), input.bytes)
      else Goto(v, RemoveStage(false))
    case Download =>
      if input.Output? && b.recipe == Source(Sha256(input.bytes)) then Goto(v, Unpack(input.bytes))
      else Goto(v, RemoveStage(false))
    case Unpack(archive) =>
      if input.Output? then Made(v, Source(Sha256(archive)), input.bytes) else Goto(v, RemoveStage(false))
    case DigestStage(bytes) =>
      Goto(v, if input == Error then RemoveStage(false) else WriteManifest(bytes, Sha256(bytes)))
    case WriteManifest(bytes, hash) =>
      Goto(v, if input == Error then RemoveStage(false) else RenamePayload(bytes, Manifest(b.recipe, hash)))
    case RenamePayload(bytes, manifest) =>
      if input == Error then Goto(v, RemoveStage(false))
      else v.(payload := Some(bytes), builder := b.(pc := RenameManifest(bytes, manifest), clean := true))
    case RenameManifest(bytes, manifest) =>
      if input == Error then Goto(v, RemoveStage(false))
      else v.(manifest := Some(manifest),
              builder := b.(pc := RemoveStage(true), accepted := Some(bytes), built := true))
    case RemoveStage(ok) => Goto(v, Release(ok && input != Error))
    case _ => v
  }

  predicate Checking(pc: Pc) { pc.ReadManifest? || pc.ReadPayload? }

  predicate Locking(pc: Pc) {
    pc.MakeRoot? || pc.TryLock? || pc.StatLock? || pc.JudgeLock? || pc.StealLock? || pc.Sleep? || pc.Release?
  }

  function StepBuilder(v: View, input: Input): View {
    if v.builder.pc.DigestSource? then StepDigest(v, input)
    else if Checking(v.builder.pc) then StepCheck(v, input)
    else if Locking(v.builder.pc) then StepLock(v, input)
    else StepMake(v, input)
  }

  // ---- the whole system ----

  function Look(s: State, p: Pid): View
    requires p in s.builders
  {
    var b := s.builders[p];
    View(s.clock, At(s.payloads, SOURCE), b, At(s.payloads, b.slot), At(s.manifests, b.slot), At(s.locks, b.slot), None)
  }

  /** Everyone else on the slot is disturbed. */
  function Disturb(builders: map<Pid, Builder>, slot: Slot, but: Pid): map<Pid, Builder> {
    map q | q in builders :: if q != but && builders[q].slot == slot then builders[q].(clean := false) else builders[q]
  }

  function Write(s: State, p: Pid, v: View): State
    requires p in s.builders
  {
    var slot := v.builder.slot;
    var touched := v.payload != At(s.payloads, slot) || v.manifest != At(s.manifests, slot);
    State(
      s.clock,
      With(s.payloads, slot, v.payload),
      With(s.manifests, slot, v.manifest),
      With(s.locks, slot, v.lock),
      (if touched then Disturb(s.builders, slot, p) else s.builders)[p := v.builder],
      if v.made.Some? then s.credited + {(v.builder.recipe, v.made.value.1)} else s.credited,
      if v.made.Some? then s.produced + {v.made.value} else s.produced)
  }

  predicate Over(pc: Pc) { pc.Returned? || pc.Failed? || pc.Crashed? }

  function Apply(s: State, e: Event): State {
    match e
    case Tick(ms) => s.(clock := s.clock + ms)
    case Corrupt(slot, payload) =>
      s.(payloads := With(s.payloads, slot, payload),
         builders := map p | p in s.builders ::
           if s.builders[p].slot == slot then s.builders[p].(clean := false) else s.builders[p])
    case Crash(p) =>
      if p in s.builders && !Over(s.builders[p].pc) then
        s.(builders := s.builders[p := s.builders[p].(pc := Crashed)])
      else s
    case Step(p, input) => if p in s.builders then Write(s, p, StepBuilder(Look(s, p), input)) else s
  }

  function Run(s: State, events: seq<Event>): State
    decreases |events|
  {
    if events == [] then s else Run(Apply(s, events[0]), events[1..])
  }

  ghost predicate Init(s: State) {
    && s.payloads == map[] && s.manifests == map[] && s.locks == map[] && s.credited == {} && s.produced == {}
    && forall p :: p in s.builders ==>
         && s.builders[p].pc == (if s.builders[p].recipe.Object? then DigestSource else ReadManifest(false))
         && s.builders[p].accepted == None && !s.builders[p].built && !s.builders[p].clean
  }

  // ---- what the check promises ----

  /** The cache check, made at one instant. */
  predicate Valid(payload: Option<Bytes>, manifest: Option<Manifest>, recipe: Recipe) {
    manifest.Some? && payload.Some? && manifest.value.recipe == recipe && Sha256(payload.value) == manifest.value.hash
  }

  predicate ValidCache(s: State, slot: Slot, recipe: Recipe) {
    Valid(At(s.payloads, slot), At(s.manifests, slot), recipe)
  }

  predicate Good(manifest: Manifest, credited: set<(Recipe, Bytes)>) {
    (manifest.recipe, manifest.hash.preimage) in credited
  }

  predicate BuilderSafe(b: Builder, payload: Option<Bytes>, manifest: Option<Manifest>,
                        credited: set<(Recipe, Bytes)>)
  {
    && (b.pc.DigestSource? ==> b.accepted.None? && !b.built && !b.clean)
    && (b.accepted.Some? ==> (b.recipe, b.accepted.value) in credited)
    && (b.pc.Returned? || (b.pc.Release? && b.pc.ok) ==> b.accepted.Some?)
    && (b.pc.RemoveStage? && b.pc.ok ==> b.accepted.Some? && b.built)
    && (b.pc.ReadPayload? ==> b.pc.manifest.recipe == b.recipe && Good(b.pc.manifest, credited))
    && (b.pc.Unpack? ==> b.recipe == Source(Sha256(b.pc.archive)))
    && (b.pc.DigestStage? || b.pc.WriteManifest? ==> (b.recipe, b.pc.bytes) in credited)
    && (b.pc.WriteManifest? ==> b.pc.hash == Sha256(b.pc.bytes))
    && (b.pc.RenamePayload? || b.pc.RenameManifest? ==>
          (b.recipe, b.pc.bytes) in credited && b.pc.manifest == Manifest(b.recipe, Sha256(b.pc.bytes)))
    && (b.built ==> b.accepted.Some? && (b.pc.RemoveStage? || b.pc.Release? || Over(b.pc)))
    && (b.clean && b.pc.RenameManifest? ==> payload == Some(b.pc.bytes))
    && (b.clean && b.built ==> payload == b.accepted && manifest == Some(Manifest(b.recipe, Sha256(b.accepted.value))))
  }

  predicate ViewSafe(v: View, credited: set<(Recipe, Bytes)>) {
    var all := if v.made.Some? then credited + {(v.builder.recipe, v.made.value.1)} else credited;
    && BuilderSafe(v.builder, v.payload, v.manifest, all)
    && (v.manifest.Some? ==> Good(v.manifest.value, all))
  }

  ghost predicate StepKeeps(v: View, v': View, credited: set<(Recipe, Bytes)>) {
    && ViewSafe(v', credited)
    && v'.builder.slot == v.builder.slot && v'.source == v.source
  }

  lemma DigestSafe(v: View, input: Input, credited: set<(Recipe, Bytes)>)
    requires v.made.None? && ViewSafe(v, credited) && v.builder.pc.DigestSource?
    ensures StepKeeps(v, StepDigest(v, input), credited)
  {
  }

  lemma CheckSafe(v: View, input: Input, credited: set<(Recipe, Bytes)>)
    requires v.made.None? && ViewSafe(v, credited) && Checking(v.builder.pc)
    ensures StepKeeps(v, StepCheck(v, input), credited)
  {
  }

  lemma LockSafe(v: View, input: Input, credited: set<(Recipe, Bytes)>)
    requires v.made.None? && ViewSafe(v, credited) && Locking(v.builder.pc)
    ensures StepKeeps(v, StepLock(v, input), credited)
  {
    hide Good;
  }

  lemma RenameSafe(v: View, input: Input, credited: set<(Recipe, Bytes)>)
    requires v.made.None? && ViewSafe(v, credited) && (v.builder.pc.RenamePayload? || v.builder.pc.RenameManifest?)
    ensures StepKeeps(v, StepMake(v, input), credited)
  {
  }

  lemma CompileSafe(v: View, input: Input, credited: set<(Recipe, Bytes)>)
    requires v.made.None? && ViewSafe(v, credited)
    requires v.builder.pc.Compile? || v.builder.pc.Download? || v.builder.pc.Unpack?
    ensures StepKeeps(v, StepMake(v, input), credited)
  {
  }

  lemma MakeSafe(v: View, input: Input, credited: set<(Recipe, Bytes)>)
    requires v.made.None? && ViewSafe(v, credited) && !v.builder.pc.DigestSource?
    requires !Checking(v.builder.pc) && !Locking(v.builder.pc)
    ensures StepKeeps(v, StepMake(v, input), credited)
  {
    if v.builder.pc.RenamePayload? || v.builder.pc.RenameManifest? { RenameSafe(v, input, credited); }
    else if v.builder.pc.Compile? || v.builder.pc.Download? || v.builder.pc.Unpack? { CompileSafe(v, input, credited); }
  }

  lemma StepSafe(v: View, input: Input, credited: set<(Recipe, Bytes)>)
    requires v.made.None? && ViewSafe(v, credited)
    ensures StepKeeps(v, StepBuilder(v, input), credited)
  {
    hide ViewSafe, StepKeeps, StepDigest, StepCheck, StepLock, StepMake;
    if v.builder.pc.DigestSource? { DigestSafe(v, input, credited); }
    else if Checking(v.builder.pc) { CheckSafe(v, input, credited); }
    else if Locking(v.builder.pc) { LockSafe(v, input, credited); }
    else { MakeSafe(v, input, credited); }
  }

  predicate CallSafe(s: State, p: Pid)
    requires p in s.builders
  {
    var b := s.builders[p];
    BuilderSafe(b, At(s.payloads, b.slot), At(s.manifests, b.slot), s.credited)
  }

  ghost predicate Safe(s: State) {
    && (forall p :: p in s.builders ==> CallSafe(s, p))
    && (forall slot :: slot in s.manifests ==> Good(s.manifests[slot], s.credited))
  }

  /** A builder stays safe when history grows, and, once disturbed, whatever happens to the files. */
  lemma BuilderSafeKept(b: Builder, payload: Option<Bytes>, manifest: Option<Manifest>, credited: set<(Recipe, Bytes)>,
                        payload': Option<Bytes>, manifest': Option<Manifest>, more: set<(Recipe, Bytes)>)
    requires BuilderSafe(b, payload, manifest, credited) && credited <= more
    ensures payload' == payload && manifest' == manifest ==> BuilderSafe(b, payload', manifest', more)
    ensures BuilderSafe(b.(clean := false), payload', manifest', more)
    ensures BuilderSafe(b.(pc := Crashed), payload, manifest, more)
  {
  }

  lemma WriteSafe(s: State, p: Pid, v: View)
    requires Safe(s) && p in s.builders && v.builder.slot == s.builders[p].slot && ViewSafe(v, s.credited)
    ensures Safe(Write(s, p, v))
  {
    hide BuilderSafe, Good, With, At;
    var s', slot := Write(s, p, v), v.builder.slot;
    forall q | q in s'.builders ensures CallSafe(s', q) {
      var b := s.builders[q];
      WithAt(s.payloads, slot, v.payload, b.slot);
      WithAt(s.manifests, slot, v.manifest, b.slot);
      if q != p {
        assert CallSafe(s, q);
        BuilderSafeKept(b, At(s.payloads, b.slot), At(s.manifests, b.slot), s.credited,
                        At(s'.payloads, b.slot), At(s'.manifests, b.slot), s'.credited);
      }
    }
    forall k | k in s'.manifests ensures Good(s'.manifests[k], s'.credited) {
      WithAt(s.manifests, slot, v.manifest, k);
      AtIn(s'.manifests, k);
      AtIn(s.manifests, k);
      if k != slot { GoodGrows(s.manifests[k], s.credited, s'.credited); }
    }
  }

  lemma GoodGrows(manifest: Manifest, credited: set<(Recipe, Bytes)>, more: set<(Recipe, Bytes)>)
    requires Good(manifest, credited) && credited <= more
    ensures Good(manifest, more)
  {
  }

  lemma LookSafe(s: State, p: Pid)
    requires Safe(s) && p in s.builders
    ensures ViewSafe(Look(s, p), s.credited) && Look(s, p).made.None?
  {
    hide BuilderSafe;
    assert CallSafe(s, p);
  }

  lemma CorruptSafe(s: State, slot: Slot, payload: Option<Bytes>)
    requires Safe(s)
    ensures Safe(Apply(s, Corrupt(slot, payload)))
  {
    hide BuilderSafe, With, At;
    var s' := Apply(s, Corrupt(slot, payload));
    forall p | p in s'.builders ensures CallSafe(s', p) {
      var b := s.builders[p];
      assert CallSafe(s, p);
      WithAt(s.payloads, slot, payload, b.slot);
      BuilderSafeKept(b, At(s.payloads, b.slot), At(s.manifests, b.slot), s.credited,
                      At(s'.payloads, b.slot), At(s'.manifests, b.slot), s.credited);
    }
  }

  lemma CrashSafe(s: State, p: Pid)
    requires Safe(s)
    ensures Safe(Apply(s, Crash(p)))
  {
    hide BuilderSafe, At;
    var s' := Apply(s, Crash(p));
    forall q | q in s'.builders ensures CallSafe(s', q) {
      var b := s.builders[q];
      assert CallSafe(s, q);
      BuilderSafeKept(b, At(s.payloads, b.slot), At(s.manifests, b.slot), s.credited,
                      At(s.payloads, b.slot), At(s.manifests, b.slot), s.credited);
    }
  }

  lemma TickSafe(s: State, ms: nat)
    requires Safe(s)
    ensures Safe(Apply(s, Tick(ms)))
  {
    hide BuilderSafe, At;
    var s' := Apply(s, Tick(ms));
    forall q | q in s'.builders ensures CallSafe(s', q) { assert CallSafe(s, q); }
  }

  lemma ApplySafe(s: State, e: Event)
    requires Safe(s)
    ensures Safe(Apply(s, e))
  {
    hide Safe, ViewSafe, StepBuilder, Write;
    match e
    case Tick(ms) => TickSafe(s, ms);
    case Corrupt(slot, payload) => CorruptSafe(s, slot, payload);
    case Crash(p) => CrashSafe(s, p);
    case Step(p, input) =>
      if p in s.builders {
        LookSafe(s, p);
        StepSafe(Look(s, p), input, s.credited);
        WriteSafe(s, p, StepBuilder(Look(s, p), input));
      }
  }

  lemma {:induction false} RunSafe(s: State, events: seq<Event>)
    requires Safe(s)
    ensures Safe(Run(s, events))
    decreases |events|
  {
    hide Safe, Apply;
    if events != [] {
      ApplySafe(s, events[0]);
      RunSafe(Apply(s, events[0]), events[1..]);
    }
  }

  lemma InitSafe(s: State)
    requires Init(s)
    ensures Safe(s)
  {
    forall p | p in s.builders ensures CallSafe(s, p) {
    }
  }

  /** However builders interleave, crash between the renames, steal locks or find a payload corrupted: a cache check
      passes only for bytes that a build asked for with exactly that recipe was given. */
  lemma CheckIsCredited(s: State, events: seq<Event>, slot: Slot, recipe: Recipe)
    requires Init(s)
    ensures var t := Run(s, events);
            ValidCache(t, slot, recipe) ==> slot in t.payloads && (recipe, t.payloads[slot]) in t.credited
    ensures var t := Run(s, events);
            forall p :: p in t.builders && t.builders[p].pc.Returned? ==>
              t.builders[p].accepted.Some? && (t.builders[p].recipe, t.builders[p].accepted.value) in t.credited
  {
    hide Run;
    InitSafe(s);
    RunSafe(s, events);
    var t := Run(s, events);
    forall p | p in t.builders && t.builders[p].pc.Returned?
      ensures t.builders[p].accepted.Some? && (t.builders[p].recipe, t.builders[p].accepted.value) in t.credited
    {
      assert CallSafe(t, p);
    }
  }

  /** A call that built and was not interfered with since its first rename leaves a cache that checks as valid. */
  lemma BuildLeavesValid(s: State, events: seq<Event>, p: Pid)
    requires Init(s) && p in Run(s, events).builders
    requires var b := Run(s, events).builders[p]; b.pc.Returned? && b.built && b.clean
    ensures var t := Run(s, events); ValidCache(t, t.builders[p].slot, t.builders[p].recipe)
  {
    hide Run;
    InitSafe(s);
    RunSafe(s, events);
    assert CallSafe(Run(s, events), p);
  }
}
