/** What an object in the SQLite cache was really compiled from, when its source file may change under the compiler. */
module SqliteSource {
  import opened Options
  import opened SqlitePublish

  /** Whatever was credited to a recipe was made from it. */
  ghost predicate Truthful(s: State) { s.credited <= s.produced }

  /** The compile reads a source file other than the one its caller digested. */
  predicate OtherSource(s: State, e: Event) {
    && e.Step? && e.pid in s.builders && e.input.Output?
    && s.builders[e.pid].pc.Compile? && s.builders[e.pid].recipe.Object?
    && SOURCE in s.payloads && Sha256(s.payloads[SOURCE]) != s.builders[e.pid].recipe.source
  }

  /** And what it gives was never made from the digested one either. */
  predicate Miscredits(s: State, e: Event) {
    OtherSource(s, e) && (s.builders[e.pid].recipe, e.input.bytes) !in s.produced
  }

  /** What the next step of a call makes its output from, if it makes anything. */
  function Material(b: Builder, source: Option<Bytes>): Option<Recipe> {
    if b.pc.Compile? && b.recipe.Object? && source.Some? then Some(MadeFrom(b.recipe, source))
    else if b.pc.Unpack? then Some(Source(Sha256(b.pc.archive)))
    else None
  }

  function MadeFrom(recipe: Recipe, source: Option<Bytes>): Recipe {
    if recipe.Object? && source.Some? then recipe.(source := Sha256(source.value)) else recipe
  }

  ghost predicate MakesOnly(v: View, input: Input, w: View) {
    var material := Material(v.builder, v.source);
    && w.source == v.source
    && w.made == (if input.Output? && material.Some? then Some((material.value, input.bytes)) else None)
    && (w.made.Some? ==> w.builder.recipe == v.builder.recipe)
  }

  lemma LockMakesNothing(v: View, input: Input)
    requires v.made.None? && Locking(v.builder.pc)
    ensures MakesOnly(v, input, StepLock(v, input))
  {
  }

  lemma OnlyMakeMakes(v: View, input: Input)
    requires v.made.None?
    ensures MakesOnly(v, input, StepBuilder(v, input))
  {
    hide StepLock;
    if Locking(v.builder.pc) { LockMakesNothing(v, input); }
  }

  /** What a step adds to the two histories. */
  lemma Histories(s: State, p: Pid, input: Input)
    requires p in s.builders
    ensures var b, t := s.builders[p], Apply(s, Step(p, input));
            var material := Material(b, At(s.payloads, SOURCE));
            if input.Output? && material.Some? then
              && t.credited == s.credited + {(b.recipe, input.bytes)}
              && t.produced == s.produced + {(material.value, input.bytes)}
            else t.credited == s.credited && t.produced == s.produced
  {
    hide StepBuilder, At, With, Disturb, Material;
    OnlyMakeMakes(Look(s, p), input);
  }

  /** A call unpacks no archive but the one its recipe names: the download was compared with it. */
  lemma UnpacksPinned(s: State, p: Pid)
    requires Safe(s) && p in s.builders && s.builders[p].pc.Unpack?
    ensures Material(s.builders[p], At(s.payloads, SOURCE)) == Some(s.builders[p].recipe)
  {
    assert CallSafe(s, p);
  }

  /** One step, exactly: the credit stays true unless the step miscredits. */
  lemma TruthExact(s: State, e: Event)
    requires Safe(s) && Truthful(s)
    ensures Truthful(Apply(s, e)) <==> !Miscredits(s, e)
  {
    match e
    case Step(p, input) =>
      if p in s.builders {
        hide Apply, At, Safe;
        Histories(s, p, input);
        AtIn(s.payloads, SOURCE);
        var b, t := s.builders[p], Apply(s, e);
        if b.pc.Unpack? { UnpacksPinned(s, p); }
        if Miscredits(s, e) {
          assert (b.recipe, input.bytes) in t.credited && (b.recipe, input.bytes) !in t.produced;
        }
      }
    case _ =>
  }

  // ---- over whole runs ----

  predicate Steady(s: State, events: seq<Event>)
    decreases |events|
  {
    events == [] || (!OtherSource(s, events[0]) && Steady(Apply(s, events[0]), events[1..]))
  }

  predicate NoneMiscredited(s: State, events: seq<Event>)
    decreases |events|
  {
    events == [] || (!Miscredits(s, events[0]) && NoneMiscredited(Apply(s, events[0]), events[1..]))
  }

  /** The cache check is true only of bytes that were produced from exactly the recipe checked for. */
  ghost predicate Sound(s: State) {
    forall slot, recipe ::
      ValidCache(s, slot, recipe) ==> slot in s.payloads && (recipe, s.payloads[slot]) in s.produced
  }

  lemma TruthfulSound(s: State)
    requires Safe(s) && Truthful(s)
    ensures Sound(s)
  {
    hide BuilderSafe;
    forall slot, recipe | ValidCache(s, slot, recipe)
      ensures slot in s.payloads && (recipe, s.payloads[slot]) in s.produced
    {
      assert Good(s.manifests[slot], s.credited);
    }
  }

  lemma {:induction false} RunTruthful(s: State, events: seq<Event>)
    requires Safe(s) && Truthful(s) && NoneMiscredited(s, events)
    ensures Safe(Run(s, events)) && Truthful(Run(s, events))
    decreases |events|
  {
    hide Safe, Truthful, Apply, Miscredits;
    if events != [] {
      ApplySafe(s, events[0]);
      TruthExact(s, events[0]);
      RunTruthful(Apply(s, events[0]), events[1..]);
    }
  }

  lemma {:induction false} SteadyMiscreditsNone(s: State, events: seq<Event>)
    requires Steady(s, events)
    ensures NoneMiscredited(s, events)
    decreases |events|
  {
    hide Apply, OtherSource;
    if events != [] { SteadyMiscreditsNone(Apply(s, events[0]), events[1..]); }
  }

  /** As long as every compile reads the source file whose digest its caller took: however builders interleave, crash
      between the renames, steal locks or find an object corrupted, a cache check passes only for bytes that a completed
      build from exactly that recipe produced, and a call returns only such bytes. */
  lemma CheckIsSound(s: State, events: seq<Event>)
    requires Init(s) && Steady(s, events)
    ensures Sound(Run(s, events))
    ensures var t := Run(s, events);
            forall p :: p in t.builders && t.builders[p].pc.Returned? ==>
              t.builders[p].accepted.Some? && (t.builders[p].recipe, t.builders[p].accepted.value) in t.produced
  {
    hide Run;
    InitSafe(s);
    SteadyMiscreditsNone(s, events);
    RunTruthful(s, events);
    var t := Run(s, events);
    TruthfulSound(t);
    forall p | p in t.builders && t.builders[p].pc.Returned?
      ensures t.builders[p].accepted.Some? && (t.builders[p].recipe, t.builders[p].accepted.value) in t.produced
    {
      assert CallSafe(t, p);
    }
  }

  // ---- the exact condition ----

  /** Call `p` goes on alone, and nothing fails. */
  function Onward(p: Pid, n: nat): seq<Event> { if n == 0 then [] else [Step(p, Ok)] + Onward(p, n - 1) }

  lemma OnwardOnce(s: State, p: Pid, n: nat)
    ensures Run(s, Onward(p, n + 1)) == Run(Apply(s, Step(p, Ok)), Onward(p, n))
    ensures Run(s, Onward(p, 0)) == s
  {
    assert Onward(p, n + 1)[1..] == Onward(p, n);
  }

  lemma {:induction false} RunAppend(s: State, a: seq<Event>, b: seq<Event>)
    ensures Run(s, a + b) == Run(Run(s, a), b)
    decreases |a|
  {
    hide Apply;
    if a == [] {
      assert a + b == b;
    } else {
      assert (a + b)[1..] == a[1..] + b;
      RunAppend(Apply(s, a[0]), a[1..], b);
    }
  }

  lemma {:induction false} OnwardMiscreditsNone(s: State, p: Pid, n: nat)
    ensures NoneMiscredited(s, Onward(p, n))
    decreases n
  {
    hide Apply;
    if n > 0 {
      OnwardMiscreditsNone(Apply(s, Step(p, Ok)), p, n - 1);
      assert Onward(p, n)[1..] == Onward(p, n - 1);
    }
  }

  /** Whichever call goes on alone, and however far, the check stays sound. */
  ghost predicate SoundAhead(s: State) { forall p, n: nat :: Sound(Run(s, Onward(p, n))) }

  ghost predicate SoundThroughout(s: State, events: seq<Event>)
    decreases |events|
  {
    SoundAhead(s) && (events == [] || SoundThroughout(Apply(s, events[0]), events[1..]))
  }

  lemma WithSame<V>(m: map<nat, V>, k: nat)
    ensures With(m, k, At(m, k)) == m
  {
  }

  function Put(s: State, p: Pid, b: Builder, locks: map<Slot, nat>): State {
    s.(builders := s.builders[p := b], locks := locks)
  }

  lemma PutTwice(s: State, p: Pid, b: Builder, locks: map<Slot, nat>, b': Builder, locks': map<Slot, nat>)
    ensures Put(Put(s, p, b, locks), p, b', locks') == Put(s, p, b', locks')
  {
  }

  /** A step that touches neither file changes the call and the lock of its slot, and nothing else. */
  lemma QuietStep(s: State, p: Pid)
    requires p in s.builders
    requires var v := Look(s, p);
             var w := StepBuilder(v, Ok);
             w.payload == v.payload && w.manifest == v.manifest && w.builder.slot == v.builder.slot
    ensures var w := StepBuilder(Look(s, p), Ok);
            Apply(s, Step(p, Ok)) == Put(s, p, w.builder, With(s.locks, w.builder.slot, w.lock))
  {
    hide StepBuilder, At, With;
    OnlyMakeMakes(Look(s, p), Ok);
    WithSame(s.payloads, s.builders[p].slot);
    WithSame(s.manifests, s.builders[p].slot);
  }

  lemma DigestOk(s: State, p: Pid)
    requires p in s.builders && (s.builders[p].pc.DigestStage? || s.builders[p].pc.WriteManifest?)
    ensures var b := s.builders[p];
            var pc := if b.pc.DigestStage? then WriteManifest(b.pc.bytes, Sha256(b.pc.bytes))
                      else RenamePayload(b.pc.bytes, Manifest(b.recipe, b.pc.hash));
            Apply(s, Step(p, Ok)) == s.(builders := s.builders[p := b.(pc := pc)])
  {
    hide With, At;
    QuietStep(s, p);
    WithSame(s.locks, s.builders[p].slot);
  }

  lemma RenameOk(s: State, p: Pid)
    requires p in s.builders && (s.builders[p].pc.RenamePayload? || s.builders[p].pc.RenameManifest?)
    ensures var b, t := s.builders[p], Apply(s, Step(p, Ok));
            && t.produced == s.produced && p in t.builders
            && t.builders[p].slot == b.slot && t.builders[p].recipe == b.recipe
            && (forall q ::
                  q in s.builders && s.builders[q].slot != b.slot ==> q in t.builders && t.builders[q] == s.builders[q])
            && t.locks == s.locks
            && (forall k :: k != b.slot ==> At(t.manifests, k) == At(s.manifests, k))
            && (b.pc.RenamePayload? ==>
                  && t.payloads == s.payloads[b.slot := b.pc.bytes]
                  && t.builders[p].pc == RenameManifest(b.pc.bytes, b.pc.manifest))
            && (b.pc.RenameManifest? ==>
                  && t.payloads == s.payloads && t.manifests == s.manifests[b.slot := b.pc.manifest]
                  && t.builders[p].pc == RemoveStage(true) && t.builders[p].accepted == Some(b.pc.bytes))
  {
    WithSame(s.locks, s.builders[p].slot);
    WithSame(s.payloads, s.builders[p].slot);
  }

  lemma ToRename(s: State, p: Pid, bytes: Bytes)
    requires p in s.builders && s.builders[p].pc == DigestStage(bytes)
    ensures var b := s.builders[p];
            Run(s, Onward(p, 2))
            == s.(builders := s.builders[p := b.(pc := RenamePayload(bytes, Manifest(b.recipe, Sha256(bytes))))])
  {
    hide Run, Apply, Onward;
    DigestOk(s, p);
    var s1 := Apply(s, Step(p, Ok));
    DigestOk(s1, p);
    OnwardOnce(Apply(s1, Step(p, Ok)), p, 0);
    OnwardOnce(s1, p, 0);
    OnwardOnce(s, p, 1);
  }

  /** A compiled object goes into place under the recipe of the call. */
  lemma Staged(s: State, p: Pid, bytes: Bytes)
    requires p in s.builders && s.builders[p].pc == DigestStage(bytes)
    ensures var b, t := s.builders[p], Run(s, Onward(p, 4));
            && ValidCache(t, b.slot, b.recipe) && b.slot in t.payloads && t.payloads[b.slot] == bytes
            && p in t.builders && t.builders[p].slot == b.slot && t.builders[p].recipe == b.recipe
            && t.builders[p].pc == RemoveStage(true) && t.builders[p].accepted == Some(bytes)
            && t.produced == s.produced && t.locks == s.locks
            && (forall q ::
                  q in s.builders && s.builders[q].slot != b.slot ==> q in t.builders && t.builders[q] == s.builders[q])
            && (forall k :: k != b.slot ==> At(t.manifests, k) == At(s.manifests, k))
  {
    hide Run, Apply, Onward;
    ToRename(s, p, bytes);
    var s2 := Run(s, Onward(p, 2));
    RenameOk(s2, p);
    var s3 := Apply(s2, Step(p, Ok));
    RenameOk(s3, p);
    OnwardOnce(Apply(s3, Step(p, Ok)), p, 0);
    OnwardOnce(s3, p, 0);
    OnwardOnce(s2, p, 1);
    OnwardMore(s, p, 2, 2);
  }

  /** What the compile gives is staged. */
  lemma CompileOk(s: State, p: Pid, bytes: Bytes)
    requires p in s.builders && s.builders[p].pc.Compile? && s.builders[p].recipe.Object? && SOURCE in s.payloads
    ensures var from := MadeFrom(s.builders[p].recipe, At(s.payloads, SOURCE));
            Staging(s, p, from, bytes, Apply(s, Step(p, Output(bytes))))
  {
    WithSame(s.payloads, s.builders[p].slot);
    WithSame(s.manifests, s.builders[p].slot);
    WithSame(s.locks, s.builders[p].slot);
  }

  /** Call `p` has made `bytes` from `recipe`, and nothing else is different. */
  ghost predicate Staging(s: State, p: Pid, recipe: Recipe, bytes: Bytes, t: State)
    requires p in s.builders
  {
    && t.builders == s.builders[p := s.builders[p].(pc := DigestStage(bytes))]
    && t.payloads == s.payloads && t.manifests == s.manifests && t.locks == s.locks
    && t.produced == s.produced + {(recipe, bytes)}
  }

  /** After a miscredited compile the call has only to go on: the check then passes for bytes never made from its
      recipe. */
  lemma Misleads(s: State, e: Event)
    requires Miscredits(s, e)
    ensures !Sound(Run(Apply(s, e), Onward(e.pid, 4)))
  {
    hide Run, Apply, ValidCache;
    var p, bytes, b := e.pid, e.input.bytes, s.builders[e.pid];
    CompileOk(s, p, bytes);
    AtIn(s.payloads, SOURCE);
    Staged(Apply(s, e), p, bytes);
    var t := Run(Apply(s, e), Onward(p, 4));
    assert ValidCache(t, b.slot, b.recipe) && (b.recipe, t.payloads[b.slot]) !in t.produced;
  }

  /** The exact condition: the cache check can be trusted all along a run if and only if no compile in it is
      miscredited. */
  lemma {:induction false} SoundExact(s: State, events: seq<Event>)
    requires Safe(s) && Truthful(s)
    ensures SoundThroughout(s, events) <==> NoneMiscredited(s, events)
    decreases |events|
  {
    hide Apply, Safe, Truthful, Sound, Miscredits, Run;
    forall p, n: nat ensures Sound(Run(s, Onward(p, n))) {
      OnwardMiscreditsNone(s, p, n);
      RunTruthful(s, Onward(p, n));
      TruthfulSound(Run(s, Onward(p, n)));
    }
    if events != [] {
      var e := events[0];
      ApplySafe(s, e);
      TruthExact(s, e);
      if Miscredits(s, e) {
        MisledAhead(s, e);
      } else {
        SoundExact(Apply(s, e), events[1..]);
      }
    }
  }

  lemma MisledAhead(s: State, e: Event)
    requires Miscredits(s, e)
    ensures !SoundAhead(Apply(s, e))
  {
    Misleads(s, e);
  }

  // ---- a run that breaks it ----

  lemma ReadsManifest(v: View, locked: bool)
    requires v.builder.pc == ReadManifest(locked)
    ensures StepBuilder(v, Ok) ==
            v.(builder := v.builder.(pc :=
                 if v.manifest.Some? && v.manifest.value.recipe == v.builder.recipe then
                   ReadPayload(locked, v.manifest.value)
                 else if locked then Making(v.builder.recipe) else MakeRoot))
  {
  }

  lemma ReadsPayload(v: View, locked: bool)
    requires v.builder.pc.ReadPayload? && v.builder.pc.locked == locked
    requires v.manifest == Some(v.builder.pc.manifest) && v.builder.pc.manifest.recipe == v.builder.recipe
    ensures StepBuilder(v, Ok) ==
            v.(builder :=
                 if Valid(v.payload, v.manifest, v.builder.recipe) then
                   v.builder.(pc := if locked then Release(true) else Returned, accepted := v.payload)
                 else v.builder.(pc := if locked then Making(v.builder.recipe) else MakeRoot))
  {
  }

  /** The two reads of the cache check accept exactly a valid pair of files. */
  lemma CheckOnward(s: State, p: Pid, locked: bool) returns (k: nat)
    requires p in s.builders && s.builders[p].pc == ReadManifest(locked)
    ensures var b := s.builders[p];
            Run(s, Onward(p, k)) ==
            Put(s, p,
                if ValidCache(s, b.slot, b.recipe) then
                  b.(pc := if locked then Release(true) else Returned, accepted := At(s.payloads, b.slot))
                else b.(pc := if locked then Making(b.recipe) else MakeRoot), s.locks)
  {
    hide Run, Apply, Put, With, At, StepBuilder, Onward;
    var b := s.builders[p];
    PutIs(s, p);
    WithSame(s.locks, b.slot);
    var v := Look(s, p);
    ReadsManifest(v, locked);
    var b1 := StepBuilder(v, Ok).builder;
    var s1 := Put(s, p, b1, s.locks);
    OneQuiet(s, p, s, b, s.locks, b1, s.locks);
    k := 1;
    OnwardOnce(s1, p, 0);
    OnwardOnce(s, p, 0);
    if b1.pc.ReadPayload? {
      k := 2;
      var v1 := v.(builder := b1);
      ReadsPayload(v1, locked);
      var b2 := StepBuilder(v1, Ok).builder;
      OneQuiet(s, p, s1, b1, s.locks, b2, s.locks);
      OnwardOnce(Put(s, p, b2, s.locks), p, 0);
      OnwardOnce(s1, p, 0);
      OnwardOnce(s, p, 1);
    }
  }

  lemma {:induction false} OnwardMore(s: State, p: Pid, n: nat, m: nat)
    ensures Run(s, Onward(p, n + m)) == Run(Run(s, Onward(p, n)), Onward(p, m))
    decreases n
  {
    hide Run, Apply;
    OnwardOnce(s, p, 0);
    if n > 0 {
      OnwardOnce(s, p, n + m - 1);
      OnwardOnce(s, p, n - 1);
      OnwardMore(Apply(s, Step(p, Ok)), p, n - 1, m);
    }
  }

  lemma TakesLock(s: State, p: Pid)
    requires p in s.builders && s.builders[p].pc == MakeRoot && s.builders[p].slot !in s.locks
    ensures var b := s.builders[p];
            Run(s, Onward(p, 2)) == Put(s, p, b.(pc := ReadManifest(true)), s.locks[b.slot := s.clock])
  {
    hide Run, Apply, Put, Onward;
    var b, held := s.builders[p], s.locks[s.builders[p].slot := s.clock];
    var b1, b2 := b.(pc := TryLock(s.clock + DEADLINE)), b.(pc := ReadManifest(true));
    PutIs(s, p);
    WithSame(s.locks, b.slot);
    OneQuiet(s, p, s, b, s.locks, b1, s.locks);
    var s1 := Put(s, p, b1, s.locks);
    OneQuiet(s, p, s1, b1, s.locks, b2, held);
    OnwardOnce(Put(s, p, b2, held), p, 0);
    OnwardOnce(s1, p, 0);
    OnwardOnce(s, p, 1);
  }

  /** An unlocked slot for which the check is not true: the call takes the lock and comes to the compile. */
  lemma ToMake(s: State, p: Pid) returns (k: nat)
    requires p in s.builders && s.builders[p].pc == ReadManifest(false)
    requires !ValidCache(s, s.builders[p].slot, s.builders[p].recipe) && s.builders[p].slot !in s.locks
    ensures var b := s.builders[p];
            Run(s, Onward(p, k)) == Put(s, p, b.(pc := Making(b.recipe)), s.locks[b.slot := s.clock])
  {
    hide Run, Apply, Put, Look, Onward, ValidCache;
    var b, held := s.builders[p], s.locks[s.builders[p].slot := s.clock];
    var b1, b2 := b.(pc := MakeRoot), b.(pc := ReadManifest(true));
    var i := CheckOnward(s, p, false);
    var s1, s2 := Put(s, p, b1, s.locks), Put(s, p, b2, held);
    PutMeans(s, p, b1, s.locks);
    TakesLock(s1, p);
    PutTwice(s, p, b1, s.locks, b2, held);
    PutMeans(s, p, b2, held);
    var j := CheckOnward(s2, p, true);
    PutTwice(s, p, b2, held, b.(pc := Making(b.recipe)), held);
    OnwardMore(s, p, i, 2 + j);
    OnwardMore(s1, p, 2, j);
    k := i + (2 + j);
  }

  lemma PutMeans(s: State, p: Pid, b: Builder, locks: map<Slot, nat>)
    requires p in s.builders && b.slot == s.builders[p].slot && b.recipe == s.builders[p].recipe
    ensures var t := Put(s, p, b, locks);
            && p in t.builders && t.builders[p] == b && t.locks == locks && t.clock == s.clock
            && (ValidCache(t, b.slot, b.recipe) <==> ValidCache(s, b.slot, b.recipe))
  {
  }

  lemma PutIs(s: State, p: Pid)
    requires p in s.builders
    ensures Put(s, p, s.builders[p], s.locks) == s
  {
    assert s.builders[p := s.builders[p]] == s.builders;
  }

  /** One quiet step of call `p`, told by what it makes of the call and the locks. */
  lemma OneQuiet(s: State, p: Pid, now: State, b: Builder, locks: map<Slot, nat>, b': Builder, locks': map<Slot, nat>)
    requires p in s.builders && b.slot == b'.slot && now == Put(s, p, b, locks)
    requires var v := View(s.clock, At(s.payloads, SOURCE), b, At(s.payloads, b.slot), At(s.manifests, b.slot),
                           At(locks, b.slot), None);
             StepBuilder(v, Ok) == v.(builder := b', lock := At(locks', b.slot))
    requires locks' == With(locks, b.slot, At(locks', b.slot))
    ensures Apply(now, Step(p, Ok)) == Put(s, p, b', locks') && p in now.builders && now.builders[p] == b
  {
    hide StepBuilder, Apply, At, With;
    QuietStep(now, p);
    PutTwice(s, p, b, locks, b', locks');
  }

  lemma DownloadOk(s: State, p: Pid)
    requires p in s.builders && s.builders[p].pc.Download? && s.builders[p].recipe.Source?
    ensures var b := s.builders[p];
            var archive := b.recipe.archive.preimage;
            Apply(s, Step(p, Output(archive))) == s.(builders := s.builders[p := b.(pc := Unpack(archive))])
  {
    WithSame(s.payloads, s.builders[p].slot);
    WithSame(s.manifests, s.builders[p].slot);
    WithSame(s.locks, s.builders[p].slot);
  }

  lemma UnpackOk(s: State, p: Pid, bytes: Bytes)
    requires p in s.builders && s.builders[p].pc.Unpack?
    requires s.builders[p].recipe == Source(Sha256(s.builders[p].pc.archive))
    ensures Staging(s, p, s.builders[p].recipe, bytes, Apply(s, Step(p, Output(bytes))))
  {
    WithSame(s.payloads, s.builders[p].slot);
    WithSame(s.manifests, s.builders[p].slot);
    WithSame(s.locks, s.builders[p].slot);
  }

  /** A source is downloaded and unpacked, an object compiled. */
  lemma MakeOk(s: State, p: Pid, out: Bytes) returns (events: seq<Event>)
    requires p in s.builders && s.builders[p].pc == Making(s.builders[p].recipe)
    requires s.builders[p].recipe.Object? ==> SOURCE in s.payloads
    ensures Staging(s, p, MadeFrom(s.builders[p].recipe, At(s.payloads, SOURCE)), out, Run(s, events))
  {
    hide Run, Apply;
    var b, made := s.builders[p], Step(p, Output(out));
    if b.recipe.Object? {
      CompileOk(s, p, out);
      RunFirst(s, made, []);
      events := [made] + [];
      NoMore(Apply(s, made));
    } else {
      DownloadOk(s, p);
      var download := Step(p, Output(b.recipe.archive.preimage));
      var s1 := Apply(s, download);
      UnpackOk(s1, p, out);
      RunFirst(s1, made, []);
      NoMore(Apply(s1, made));
      RunFirst(s, download, [made] + []);
      events := [download] + ([made] + []);
    }
  }

  lemma NoMore(s: State)
    ensures Run(s, []) == s
  {
  }

  /** An unlocked slot for which the check is not true: the call puts what it makes in place. */
  lemma Builds(s: State, p: Pid, out: Bytes) returns (events: seq<Event>)
    requires p in s.builders && s.builders[p].pc == ReadManifest(false)
    requires !ValidCache(s, s.builders[p].slot, s.builders[p].recipe) && s.builders[p].slot !in s.locks
    requires s.builders[p].recipe.Object? ==> SOURCE in s.payloads
    ensures var b, t := s.builders[p], Run(s, events);
            && ValidCache(t, b.slot, b.recipe) && b.slot in t.payloads && t.payloads[b.slot] == out
            && t.produced == s.produced + {(MadeFrom(b.recipe, At(s.payloads, SOURCE)), out)}
            && t.locks == s.locks[b.slot := s.clock]
            && (forall q ::
                  q in s.builders && s.builders[q].slot != b.slot ==> q in t.builders && t.builders[q] == s.builders[q])
            && (forall k :: k != b.slot ==> At(t.manifests, k) == At(s.manifests, k))
  {
    hide Run, Apply, ValidCache, At, MadeFrom, Onward;
    var k := ToMake(s, p);
    var s1 := Run(s, Onward(p, k));
    var make := MakeOk(s1, p, out);
    var s2 := Run(s1, make);
    Staged(s2, p, out);
    RunAppend(s1, make, Onward(p, 4));
    RunAppend(s, Onward(p, k), make + Onward(p, 4));
    events := Onward(p, k) + (make + Onward(p, 4));
  }

  lemma Digested(s: State, p: Pid)
    requires p in s.builders && s.builders[p].pc == DigestSource && s.builders[p].recipe.Object? && SOURCE in s.payloads
    ensures var b, t := s.builders[p], Apply(s, Step(p, Ok));
            t == s.(builders := s.builders[p := b.(pc := ReadManifest(false),
                                                   recipe := b.recipe.(source := Sha256(s.payloads[SOURCE])))])
  {
    hide Apply;
    QuietStep(s, p);
    WithSame(s.locks, s.builders[p].slot);
  }

  /** From where the source was just put in place: the call for an object digests it, it is damaged, and the compile
      reads what it is by then. */
  lemma DamagedSource(s: State, p: Pid, damaged: Bytes, compiled: Bytes) returns (events: seq<Event>)
    requires p in s.builders && s.builders[p].pc == DigestSource && s.builders[p].recipe.Object?
    requires SOURCE in s.payloads && s.payloads[SOURCE] != damaged
    requires s.builders[p].slot != SOURCE && s.builders[p].slot !in s.manifests && s.builders[p].slot !in s.locks
    requires (s.builders[p].recipe.(source := Sha256(s.payloads[SOURCE])), compiled) !in s.produced
    ensures !Sound(Run(s, events))
  {
    hide Run, Sound;
    var b, source := s.builders[p], s.payloads[SOURCE];
    Digested(s, p);
    OnwardOnce(s, p, 0);
    var s1 := Apply(s, Step(p, Ok));
    var k := ToMake(s1, p);
    var s2 := Run(s1, Onward(p, k));
    var s3 := Apply(s2, Corrupt(SOURCE, Some(damaged)));
    assert s3.builders[p].pc.Compile? && s3.builders[p].recipe == b.recipe.(source := Sha256(source));
    var compile := Step(p, Output(compiled));
    assert Miscredits(s3, compile);
    Misleads(s3, compile);
    events := [Step(p, Ok)] + (Onward(p, k) + ([Corrupt(SOURCE, Some(damaged))] + ([compile] + Onward(p, 4))));
    RunFirst(s, Step(p, Ok), Onward(p, k) + ([Corrupt(SOURCE, Some(damaged))] + ([compile] + Onward(p, 4))));
    RunAppend(s1, Onward(p, k), [Corrupt(SOURCE, Some(damaged))] + ([compile] + Onward(p, 4)));
    RunFirst(s2, Corrupt(SOURCE, Some(damaged)), [compile] + Onward(p, 4));
    RunFirst(s3, compile, Onward(p, 4));
  }

  lemma RunFirst(s: State, e: Event, rest: seq<Event>)
    ensures Run(s, [e] + rest) == Run(Apply(s, e), rest)
  {
    assert ([e] + rest)[1..] == rest;
  }

  function Caller(slot: Slot, recipe: Recipe, pc: Pc): Builder { Builder(slot, recipe, pc, None, false, false) }

  /** From an empty cache: the source is fetched and put in place, then damaged after its digest was taken. */
  lemma DigestIsNotEnough() returns (s: State, events: seq<Event>)
    ensures Init(s) && !Sound(Run(s, events))
  {
    hide Run, Sound, Apply;
    var archive, recipe := Source(Sha256([1])), Object(Sha256([]), "host", ["cc"], ["-O2"]);
    s := State(0, map[], map[], map[],
               map[0 := Caller(SOURCE, archive, ReadManifest(false)), 1 := Caller(1, recipe, DigestSource)], {}, {});
    var fetched := Builds(s, 0, [2]);
    var t := Run(s, fetched);
    AtIn(s.manifests, 1);
    AtIn(t.manifests, 1);
    var rest := DamagedSource(t, 1, [3], [4]);
    events := fetched + rest;
    RunAppend(s, fetched, rest);
  }

  // ---- what holds in every run ----

  function Sourced(recipe: Recipe, source: Digest): Recipe {
    if recipe.Object? then recipe.(source := source) else recipe
  }

  /** Whatever was credited to a recipe was made by its command and flags, from some source file. */
  ghost predicate Backed(s: State) {
    forall recipe, bytes ::
      (recipe, bytes) in s.credited ==> exists source :: (Sourced(recipe, source), bytes) in s.produced
  }

  lemma ApplyBacked(s: State, e: Event)
    requires Safe(s) && Backed(s)
    ensures Backed(Apply(s, e))
  {
    match e
    case Step(p, input) =>
      if p in s.builders {
        hide Apply, At, Safe;
        Histories(s, p, input);
        AtIn(s.payloads, SOURCE);
        var b, t := s.builders[p], Apply(s, e);
        if b.pc.Unpack? { UnpacksPinned(s, p); }
        forall recipe, bytes | (recipe, bytes) in t.credited
          ensures exists source :: (Sourced(recipe, source), bytes) in t.produced
        {
          if (recipe, bytes) in s.credited {
            var source :| (Sourced(recipe, source), bytes) in s.produced;
            assert (Sourced(recipe, source), bytes) in t.produced;
          } else {
            var source := if SOURCE in s.payloads then Sha256(s.payloads[SOURCE]) else Sha256([]);
            assert (Sourced(recipe, source), bytes) in t.produced;
          }
        }
      }
    case _ =>
  }

  lemma {:induction false} RunBacked(s: State, events: seq<Event>)
    requires Safe(s) && Backed(s)
    ensures Backed(Run(s, events))
    decreases |events|
  {
    hide Backed, Apply, Safe;
    if events != [] {
      ApplySafe(s, events[0]);
      ApplyBacked(s, events[0]);
      RunBacked(Apply(s, events[0]), events[1..]);
    }
  }

  /** In every run, a damaged source file or not: what the check passes was made by the recipe's command and flags for
      its target, from some source file; and a source file that the check passes was made from the archive. */
  lemma CheckIsSoundButForSource(s: State, events: seq<Event>, slot: Slot, recipe: Recipe)
    requires Init(s)
    ensures var t := Run(s, events);
            ValidCache(t, slot, recipe) ==>
              && slot in t.payloads && (exists source :: (Sourced(recipe, source), t.payloads[slot]) in t.produced)
              && (recipe.Source? ==> (recipe, t.payloads[slot]) in t.produced)
  {
    hide Run;
    InitSafe(s);
    CheckIsCredited(s, events, slot, recipe);
    RunBacked(s, events);
  }
}
