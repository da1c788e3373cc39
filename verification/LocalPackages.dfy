/** Linking local package checkouts into `node_modules`, with a kill possible between any two file operations. */
module LocalPackages {
  import opened Options

  datatype Pkg = Runtime | Toolchain | Wire

  const PACKAGES := [Runtime, Toolchain, Wire]

  /** What a path holds: what the package manager put there, as a directory or as a symlink, or a link of ours. */
  datatype Node = Original(pkg: Pkg, symlink: bool) | Ours

  predicate Symlink(node: Node) { node.Ours? || node.symlink }

  /** The two paths of a package. */
  datatype Place = Place(entry: Option<Node>, backup: Option<Node>)

  datatype Step = Done | Threw | Killed

  datatype Fate = Refused | Failed | Finished | Killed

  // ---- where an original may be ----

  function Home(original: Node): Place { Place(Some(original), None) }

  predicate Kept(place: Place, original: Node) {
    || place == Home(original)
    || place == Place(None, Some(original))
    || place == Place(Some(Ours), Some(original))
  }

  /** One package put back, if its backup is there and nothing but a symlink is in the way. */
  function Restored(place: Place): Place {
    if place.backup.None? || (place.entry.Some? && !Symlink(place.entry.value)) then place
    else Place(place.backup, None)
  }

  /** Where a kill during a restore may leave a package. */
  predicate Restoring(before: Place, after: Place) {
    || after == before || after == Restored(before)
    || (Restored(before) != before && after == Place(None, before.backup))
  }

  /** A package linked `n` times: the second time moves our own link over the backup. */
  function Linked(original: Node, n: nat): Place {
    if n == 0 then Home(original) else Place(Some(Ours), Some(if n == 1 then original else Ours))
  }

  /** Moved aside `n` times and linked again, the last link perhaps not made. */
  predicate Moved(place: Place, original: Node, n: nat) {
    place == Linked(original, n) || (n > 0 && place == Place(None, Linked(original, n - 1).entry))
  }

  /** Where a package that was moved aside `n` times is once all is restored. */
  function Left(original: Node, n: nat): Place { if n <= 1 then Home(original) else Place(Some(Ours), None) }

  function Times(requested: seq<Pkg>, p: Pkg): nat { multiset(requested)[p] }

  /** What the package manager installed: each package's original. */
  predicate Install(originals: map<Pkg, Node>) {
    forall p :: p in originals ==> originals[p].Original? && originals[p].pkg == p
  }

  /** No symlinked original is asked for twice. */
  predicate NoneTwice(requested: seq<Pkg>, originals: map<Pkg, Node>) {
    forall p :: p in originals && Symlink(originals[p]) ==> Times(requested, p) <= 1
  }

  ghost predicate TwiceADirectory(requested: seq<Pkg>, originals: map<Pkg, Node>) {
    exists p :: p in originals && !Symlink(originals[p]) && Times(requested, p) > 1
  }

  /** The packages a run links: the ones asked for, or the ones the checkout has. */
  function Requested(only: Option<seq<Pkg>>, checkout: set<Pkg>): seq<Pkg> {
    if only.Some? then only.value else Present(PACKAGES, checkout)
  }

  function Present(pkgs: seq<Pkg>, checkout: set<Pkg>): (kept: seq<Pkg>)
    ensures forall p :: p in kept ==> p in checkout
    ensures forall p :: Times(kept, p) <= Times(pkgs, p)
  {
    if pkgs == [] then []
    else
      var rest := Present(pkgs[1..], checkout);
      assert pkgs == [pkgs[0]] + pkgs[1..];
      assert forall p :: Times(pkgs, p) == multiset{pkgs[0]}[p] + Times(pkgs[1..], p);
      assert forall p :: Times([pkgs[0]] + rest, p) == multiset{pkgs[0]}[p] + Times(rest, p);
      if pkgs[0] in checkout then [pkgs[0]] + rest else rest
  }

  /** Without names, every package the checkout has is linked, once, in this order. */
  lemma AllPresent(checkout: set<Pkg>)
    ensures Requested(None, checkout)
            == (if Runtime in checkout then [Runtime] else [])
               + (if Toolchain in checkout then [Toolchain] else [])
               + (if Wire in checkout then [Wire] else [])
  {
    assert PACKAGES[1..] == [Toolchain, Wire] && [Toolchain, Wire][1..] == [Wire] && [Wire][1..] == [];
    assert Present([], checkout) == [];
    assert Present([Wire], checkout) == if Wire in checkout then [Wire] else [];
    assert Present([Toolchain, Wire], checkout)
           == (if Toolchain in checkout then [Toolchain] else []) + (if Wire in checkout then [Wire] else []);
  }

  class Workspace {
    var entry: map<Pkg, Node>
    var backup: map<Pkg, Node>
    /** File operations left before the process is killed. */
    var left: nat
    var restored: bool
    ghost const originals: map<Pkg, Node>

    constructor (originals: map<Pkg, Node>)
      requires Install(originals)
      ensures this.originals == originals && AllHome()
    {
      this.originals := originals;
      entry, backup, left, restored := originals, map[], 0, false;
    }

    ghost function At(p: Pkg): Place
      reads this
    {
      Place(if p in entry then Some(entry[p]) else None, if p in backup then Some(backup[p]) else None)
    }

    /** Every package's original is at exactly one of its two paths, and no path holds anything but it or a link of
        ours. */
    ghost predicate AllKept()
      reads this
    {
      && Install(originals)
      && forall p :: if p in originals then Kept(At(p), originals[p]) else At(p) == Place(None, None)
    }

    ghost predicate AllHome()
      reads this
    {
      && Install(originals)
      && forall p :: At(p) == if p in originals then Home(originals[p]) else Place(None, None)
    }

    // ---- file operations ----

    /** `renameSync(entry, backup)`: of what is there already, only a symlink may be replaced, and only by a symlink. */
    method MoveAside(p: Pkg, fault: bool) returns (step: Step)
      modifies `entry, `backup, `left
      ensures forall q :: q != p ==> At(q) == old(At(q))
      ensures old(left) == 0 <==> step.Killed?
      ensures left == if step.Killed? then 0 else old(left) - 1
      ensures var was := old(At(p));
              if step.Killed? || fault || was.entry.None? ||
                 (was.backup.Some? && !(Symlink(was.entry.value) && Symlink(was.backup.value)))
              then !step.Done? && At(p) == was
              else step.Done? && At(p) == Place(None, was.entry)
    {
      if left == 0 { return Step.Killed; }
      left := left - 1;
      if fault || p !in entry || (p in backup && !(Symlink(entry[p]) && Symlink(backup[p]))) { return Threw; }
      backup := backup[p := entry[p]];
      entry := entry - {p};
      step := Done;
    }

    /** `symlinkSync(target, entry)` */
    method MakeLink(p: Pkg, fault: bool) returns (step: Step)
      modifies `entry, `left
      ensures forall q :: q != p ==> At(q) == old(At(q))
      ensures old(left) == 0 <==> step.Killed?
      ensures left == if step.Killed? then 0 else old(left) - 1
      ensures if step.Killed? || fault || old(At(p)).entry.Some? then !step.Done? && At(p) == old(At(p))
              else step.Done? && At(p) == Place(Some(Ours), old(At(p)).backup)
    {
      if left == 0 { return Step.Killed; }
      left := left - 1;
      if fault || p in entry { return Threw; }
      entry := entry[p := Ours];
      step := Done;
    }

    /** Puts one package's original entry back. */
    method Restore(p: Pkg) returns (step: Step)
      modifies `entry, `backup, `left
      ensures forall q :: q != p ==> At(q) == old(At(q))
      ensures !step.Threw? && left <= old(left) <= left + 2
      ensures step.Killed? ==> old(left) < 2 && Restoring(old(At(p)), At(p))
      ensures step.Done? ==> At(p) == Restored(old(At(p)))
    {
      if p !in backup { return Done; }
      if p in entry {
        // only ever remove a symlink, never a real directory
        if !Symlink(entry[p]) { return Done; }
        if left == 0 { return Step.Killed; }
        left := left - 1;
        entry := entry - {p};
      }
      if left == 0 { return Step.Killed; }
      left := left - 1;
      entry := entry[p := backup[p]];
      backup := backup - {p};
      step := Done;
    }

    // ---- a run ----

    /** Repairs what an interrupted run left behind. */
    method Repair() returns (step: Step)
      requires AllKept()
      modifies `entry, `backup, `left
      ensures !step.Threw? && left <= old(left) <= left + 6
      ensures step.Killed? ==> old(left) < 6 && AllKept()
      ensures step.Done? ==> AllHome()
    {
      step := Done;
      for i := 0 to 3
        invariant AllKept() && left <= old(left) <= left + 2 * i
        invariant forall j ::
                    0 <= j < i && PACKAGES[j] in originals ==> At(PACKAGES[j]) == Home(originals[PACKAGES[j]])
      {
        if PACKAGES[i] in backup {
          step := Restore(PACKAGES[i]);
          if step.Killed? { return; }
        }
      }
      forall p | p in originals ensures At(p) == Home(originals[p]) {
        assert p == PACKAGES[0] || p == PACKAGES[1] || p == PACKAGES[2];
      }
      step := Done;
    }

    /** Links one package. */
    method LinkOne(p: Pkg, k: nat, faults: set<nat>) returns (step: Step, moved: bool)
      requires At(p).entry.Some?
      modifies `entry, `backup, `left
      ensures forall q :: q != p ==> At(q) == old(At(q))
      ensures left <= old(left) <= left + 2 && (step.Killed? ==> old(left) < 2)
      ensures var was := old(At(p));
              && (!moved ==> !step.Done? && At(p) == was)
              && (moved && !step.Done? ==> At(p) == Place(None, was.entry))
              && (step.Done? ==> moved && At(p) == Place(Some(Ours), was.entry))
      ensures var was := old(At(p));
              var blocked := was.backup.Some? && !(Symlink(was.entry.value) && Symlink(was.backup.value));
              (blocked ==> !moved) && (step.Threw? ==> faults != {} || blocked)
    {
      moved := false;
      step := MoveAside(p, 2 * k in faults);
      if !step.Done? { return; }
      moved := true;
      step := MakeLink(p, 2 * k + 1 in faults);
    }

    /** Every package was moved aside as often as `linked` says. */
    ghost predicate AllMoved(linked: seq<Pkg>)
      reads this
    {
      && Install(originals)
      && (forall p :: p in originals ==> Moved(At(p), originals[p], Times(linked, p)))
      && (forall p :: p !in originals ==> At(p) == Place(None, None))
    }

    ghost predicate DirectoriesOnce(linked: seq<Pkg>) {
      forall p :: p in originals && !Symlink(originals[p]) ==> Times(linked, p) <= 1
    }

    /** Links the packages in order, up to the first operation that throws. */
    method LinkAll(requested: seq<Pkg>, faults: set<nat>) returns (step: Step, linked: seq<Pkg>)
      requires AllHome() && forall p :: p in requested ==> p in originals
      modifies `entry, `backup, `left
      ensures left <= old(left) <= left + 2 * |requested|
      ensures step.Killed? ==> old(left) < 2 * |requested|
      ensures linked <= requested && AllMoved(linked) && DirectoriesOnce(linked)
      ensures step.Done? ==> linked == requested
      ensures step.Threw? ==> faults != {} || TwiceADirectory(requested, originals)
    {
      hide Times, Linked, Moved, TwiceADirectory, Install;
      linked := [];
      LinkedNone(originals);
      for i := 0 to |requested|
        invariant left <= old(left) <= left + 2 * i
        invariant linked == requested[..i] && DirectoriesOnce(linked)
        invariant forall p :: p in originals ==> At(p) == Linked(originals[p], Times(linked, p))
        invariant forall p :: p !in originals ==> At(p) == Place(None, None)
      {
        var pkg := requested[i];
        ghost var n := Times(linked, pkg);
        LinkedNext(originals, pkg, n);
        TimesMore(linked, pkg);
        TwiceMeans(requested, i, originals);
        assert requested[..i + 1] == linked + [pkg];
        var moved;
        step, moved := LinkOne(pkg, i, faults);
        if moved { linked := linked + [pkg]; }
        if !step.Done? {
          LinkedMoved(originals, linked);
          return;
        }
      }
      LinkedMoved(originals, linked);
      step := Done;
    }

    /** Puts everything linked back, last first; only the first call of a run does anything. */
    method RestoreAll(linked: seq<Pkg>) returns (step: Step)
      modifies this
      ensures left <= old(left) <= left + 2 * |linked|
      ensures step.Killed? ==> old(left) < 2 * |linked|
      ensures !step.Threw? && (step.Done? ==> restored)
      ensures old(restored) ==> step.Done? && forall p :: At(p) == old(At(p))
      ensures forall p :: p !in linked ==> At(p) == old(At(p))
      ensures forall p :: Restoring(old(At(p)), At(p))
      ensures step.Done? && !old(restored) ==> forall p :: p in linked ==> At(p) == Restored(old(At(p)))
    {
      step := Done;
      if restored { return; }
      restored := true;
      var i := |linked|;
      while i > 0
        invariant 0 <= i <= |linked| && left <= old(left) <= left + 2 * (|linked| - i)
        invariant restored && step == Done
        invariant forall p :: p in linked[i..] ==> At(p) == Restored(old(At(p)))
        invariant forall p :: p !in linked[i..] ==> At(p) == old(At(p))
        decreases i
      {
        i := i - 1;
        assert linked[i..] == [linked[i]] + linked[i + 1..];
        step := Restore(linked[i]);
        if step.Killed? { return; }
      }
    }

    /** Links, lets the command run, and puts everything back; the exit hook's second call does nothing. */
    method LinkAndRestore(requested: seq<Pkg>, faults: set<nat>) returns (fate: Fate, linked: seq<Pkg>)
      requires AllHome() && !restored && forall p :: p in requested ==> p in originals
      modifies this
      ensures linked <= requested && !fate.Refused? && Accounted(fate, linked) && DirectoriesOnce(linked)
      ensures fate.Killed? ==> old(left) < 4 * |requested|
      ensures fate.Failed? ==> faults != {} || TwiceADirectory(requested, originals)
      ensures fate.Finished? ==> linked == requested
    {
      hide Times, Linked, Restored, Restoring, Kept, Moved, Left, TwiceADirectory, Install;
      var step;
      step, linked := LinkAll(requested, faults);
      MovedAway(originals, linked);
      if step.Killed? { return Fate.Killed, linked; }
      var restoring := RestoreAll(linked);
      if restoring.Killed? { return Fate.Killed, linked; }
      restoring := RestoreAll(linked);
      fate := if step.Threw? then Failed else Finished;
    }

    /** Where the packages moved aside as often as `linked` says are: kept if it was no more than once; and, unless the
        run was killed, put back, but for a link of ours in place of an original that was moved aside twice. */
    ghost predicate Accounted(fate: Fate, linked: seq<Pkg>)
      reads this
    {
      && Install(originals)
      && (forall p :: p !in originals ==> At(p) == Place(None, None))
      && (forall p :: p in originals ==> (Kept(At(p), originals[p]) <==> Times(linked, p) <= 1))
      && (!fate.Killed? ==> forall p :: p in originals ==> At(p) == Left(originals[p], Times(linked, p)))
    }

    /** One run of the script: killed when it comes to a file operation after its first `operations`. */
    method Run(only: Option<seq<Pkg>>, checkout: set<Pkg>, faults: set<nat>, operations: nat)
      returns (fate: Fate, linked: seq<Pkg>)
      requires AllKept()
      modifies this
      ensures linked <= Requested(only, checkout) && Accounted(fate, linked)
      ensures NoneTwice(Requested(only, checkout), originals) ==> if fate.Killed? then AllKept() else AllHome()
      ensures fate.Killed? ==> operations < 6 + 4 * |Requested(only, checkout)|
      ensures fate.Refused? ==> linked == []
      ensures fate.Refused? ==>
                || Requested(only, checkout) == []
                || exists p :: p in Requested(only, checkout) && (p !in checkout || p !in originals)
      ensures Requested(only, checkout) == [] || (exists p :: p in Requested(only, checkout) && p !in checkout) ==>
                fate.Refused? || fate.Killed?
      ensures (exists p :: p in Requested(only, checkout) && p !in originals) ==> fate.Refused? || fate.Killed?
      ensures fate.Failed? ==> faults != {} || TwiceADirectory(Requested(only, checkout), originals)
      ensures fate.Finished? ==> linked == Requested(only, checkout)
    {
      hide NoneTwice, Times, Kept, Left, TwiceADirectory;
      left, restored, linked := operations, false, [];
      KeptNone(originals);
      assert DirectoriesOnce([]);
      var step := Repair();
      if step.Killed? {
        NoneLost(Requested(only, checkout), originals, []);
        return Fate.Killed, [];
      }
      var requested := Requested(only, checkout);
      NoneLost(requested, originals, []);
      if requested == [] { return Refused, []; }
      for i := 0 to |requested|
        invariant forall j :: 0 <= j < i ==> requested[j] in originals && requested[j] in checkout
      {
        assert requested[i] in requested && (requested[i] in entry <==> At(requested[i]).entry.Some?);
        if requested[i] !in checkout || requested[i] !in entry { return Refused, []; }
      }
      fate, linked := LinkAndRestore(requested, faults);
      NoneLost(requested, originals, linked);
    }
  }

  /** What a run is started with, and how many file operations it lives for. */
  datatype Plan = Plan(only: Option<seq<Pkg>>, checkout: set<Pkg>, faults: set<nat>, operations: nat)

  /** Runs one after the other, each perhaps killed anywhere: no original is ever lost, and every run that ends puts
      all back. */
  method RunAll(workspace: Workspace, plans: seq<Plan>) returns (fates: seq<Fate>)
    requires workspace.AllKept()
    requires forall i ::
               0 <= i < |plans| ==> NoneTwice(Requested(plans[i].only, plans[i].checkout), workspace.originals)
    modifies workspace
    ensures workspace.AllKept() && |fates| == |plans|
    ensures plans != [] && !fates[|plans| - 1].Killed? ==> workspace.AllHome()
  {
    fates := [];
    for i := 0 to |plans|
      invariant workspace.AllKept() && |fates| == i
      invariant i > 0 && !fates[i - 1].Killed? ==> workspace.AllHome()
    {
      var fate, _ := workspace.Run(plans[i].only, plans[i].checkout, plans[i].faults, plans[i].operations);
      fates := fates + [fate];
    }
  }

  lemma KeptOnce(place: Place, original: Node)
    requires original.Original?
    ensures Kept(place, original) <==>
            || (place.entry == Some(original) && place.backup == None)
            || (place.entry in {None, Some(Ours)} && place.backup == Some(original))
    ensures Kept(place, original) ==> (place.entry == Some(original) <==> place.backup != Some(original))
    ensures Kept(place, original) ==> Restored(place) == Home(original)
  {
  }

  /** Naming a package twice is not refused, and loses an original that is a symlink. */
  method NamedTwice() returns (workspace: Workspace, fate: Fate)
    ensures fresh(workspace) && workspace.originals == map[Wire := Original(Wire, true)]
    ensures fate == Finished && workspace.At(Wire) == Place(Some(Ours), None)
  {
    workspace := new Workspace(map[Wire := Original(Wire, true)]);
    var linked;
    fate, linked := workspace.Run(Some([Wire, Wire]), {Wire}, {}, 14);
    assert Times([Wire, Wire], Wire) == 2;
  }

  /** What the next link does to a package that was linked `n` times. */
  lemma LinkedNext(originals: map<Pkg, Node>, p: Pkg, n: nat)
    requires Install(originals) && p in originals
    ensures var now, next := Linked(originals[p], n), Linked(originals[p], n + 1);
            && now.entry.Some? && next == Place(Some(Ours), now.entry)
            && Moved(Place(None, now.entry), originals[p], n + 1)
            && (now.backup.Some? && !(Symlink(now.entry.value) && Symlink(now.backup.value)) <==>
                  n == 1 && !Symlink(originals[p]))
  {
  }

  lemma LinkedNone(originals: map<Pkg, Node>)
    ensures forall p :: Times([], p) == 0
    ensures forall p :: p in originals ==> Linked(originals[p], 0) == Home(originals[p])
  {
  }

  lemma LinkedMoved(originals: map<Pkg, Node>, linked: seq<Pkg>)
    ensures forall p :: p in originals ==> Moved(Linked(originals[p], Times(linked, p)), originals[p], Times(linked, p))
  {
  }

  lemma KeptNone(originals: map<Pkg, Node>)
    requires Install(originals)
    ensures forall p :: Times([], p) == 0
    ensures forall p :: p in originals ==> Left(originals[p], 0) == Home(originals[p])
    ensures forall p :: p in originals ==> Kept(Home(originals[p]), originals[p])
  {
  }

  /** What restoring makes of packages moved aside, and what a kill may make of them. */
  lemma MovedAway(originals: map<Pkg, Node>, linked: seq<Pkg>)
    requires Install(originals)
    ensures forall p, place, n: nat :: p in originals && Moved(place, originals[p], n) ==>
              (Kept(place, originals[p]) <==> n <= 1) && (n > 0 ==> Restored(place) == Left(originals[p], n))
    ensures forall p, place :: p in originals && Moved(place, originals[p], 0) ==> place == Left(originals[p], 0)
    ensures forall p, n: nat :: p in originals ==> (Kept(Left(originals[p], n), originals[p]) <==> n <= 1)
    ensures forall p, n: nat, before, after ::
              p in originals && Moved(before, originals[p], n) && Restoring(before, after) ==>
              (Kept(after, originals[p]) <==> n <= 1)
    ensures forall p :: Times(linked, p) == 0 <==> p !in linked
    ensures forall after :: Restoring(Place(None, None), after) ==> after == Place(None, None)
  {
  }

  /** With no symlink asked for twice, and no directory moved aside twice, nothing is lost. */
  lemma NoneLost(requested: seq<Pkg>, originals: map<Pkg, Node>, linked: seq<Pkg>)
    requires linked <= requested
    ensures forall p :: Times(linked, p) <= Times(requested, p)
    ensures NoneTwice(requested, originals) ==>
              forall p :: p in originals && Symlink(originals[p]) ==> Times(linked, p) <= 1
    ensures forall p, n: nat :: p in originals && n <= 1 ==> Left(originals[p], n) == Home(originals[p])
  {
    assert requested == linked + requested[|linked|..];
  }

  lemma TimesMore(linked: seq<Pkg>, pkg: Pkg)
    ensures forall p :: Times(linked + [pkg], p) == Times(linked, p) + if p == pkg then 1 else 0
  {
  }

  lemma TwiceMeans(requested: seq<Pkg>, i: nat, originals: map<Pkg, Node>)
    requires i < |requested|
    ensures var p := requested[i];
            p in originals && !Symlink(originals[p]) && Times(requested[..i], p) > 0 ==>
              TwiceADirectory(requested, originals)
  {
    var p := requested[i];
    assert requested == requested[..i] + ([p] + requested[i + 1..]);
    if p in originals && !Symlink(originals[p]) && Times(requested[..i], p) > 0 { assert Times(requested, p) > 1; }
  }
}
