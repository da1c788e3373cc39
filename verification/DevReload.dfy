/** The reload coordinator of `sproutboat dev`: what its event handlers keep true at every yield point. */
module DevReload {
  import opened Options

  type Id = nat

  /** The project as one read of it found it; `version` counts the edits that read could see. */
  datatype Project = Project(source: string, config: string, version: nat)

  /** A built and started candidate. `compiledFrom` is the source and config its binary was compiled from;
      `kills` and `closes` count what `stop` did to its process and its broker. */
  datatype Candidate = Candidate(
    project: Project, compiledFrom: (string, string), port: nat, transferPort: Option<nat>,
    expected: bool, dispatch: bool, kills: nat, closes: nat)

  /** Where a rebuild task stands: at one of its three awaits. */
  datatype Phase =
    | Reading
    | Starting(next: Project, reuse: Option<(string, string)>)
    | Waiting(next: Project, candidate: Id)

  datatype State = State(
    candidates: map<Id, Candidate>,
    running: Id,
    pending: Option<Id>,
    current: Project,
    activePort: nat,
    activeTransferPort: Option<nat>,
    armed: bool,
    rebuilding: bool,
    dirty: bool,
    shuttingDown: bool,
    tasks: map<Id, Phase>,
    // history
    changes: nat,
    startedAt: nat,
    succeeded: bool,
    lost: set<Id>,
    ready: set<Id>)

  datatype Event =
    | Change
    | Timer(task: Id)
    | Read(task: Id, result: Option<Project>)
    | Started(task: Id, candidate: Id, ports: Option<(nat, Option<nat>)>)
    | Ready(task: Id, ok: bool, watchersThrow: bool)
    | Signal

  predicate IsAssetOnlyRefresh(current: Project, next: Project) {
    next.source == current.source && next.config == current.config
  }

  // ---- the handlers, on values ----

  function Stopped(c: Candidate): Candidate {
    if c.expected then c else c.(expected := true, dispatch := false, kills := c.kills + 1, closes := c.closes + 1)
  }

  /** Stopping a candidate again does nothing; a candidate counted right is killed, and its broker closed, exactly
      once. */
  lemma StoppedOnce(c: Candidate)
    ensures Stopped(Stopped(c)) == Stopped(c) && Stopped(c).expected
    ensures c.kills == c.closes == (if c.expected then 1 else 0) ==> Stopped(c).kills == Stopped(c).closes == 1
  {
  }

  /** The `finally` of a rebuild task: it ends, and an edit made meanwhile re-arms the timer. */
  function Finish(s: State, task: Id): State {
    s.(rebuilding := false, tasks := s.tasks - {task}, armed := s.armed || (s.dirty && !s.shuttingDown))
  }

  function OnChange(s: State): State { s.(dirty := true, armed := true, changes := s.changes + 1) }

  function TimerFires(s: State, task: Id): State {
    if s.rebuilding || s.shuttingDown then s.(armed := false)
    else s.(armed := false, rebuilding := true, dirty := false, tasks := s.tasks[task := Reading],
             startedAt := s.changes, succeeded := false)
  }

  function ReadReturns(s: State, task: Id, result: Option<Project>): State
    requires s.running in s.candidates
  {
    if result.None? then Finish(s, task)
    else
      var next := result.value;
      var reuse := if IsAssetOnlyRefresh(s.current, next) then Some(s.candidates[s.running].compiledFrom) else None;
      s.(tasks := s.tasks[task := Starting(next, reuse)])
  }

  /** A new candidate enters the books as the pending one. */
  function Registered(s: State, id: Id, next: Project, reuse: Option<(string, string)>, port: nat,
                      transferPort: Option<nat>): (r: State)
    ensures id in r.candidates && r.shuttingDown == s.shuttingDown && r.running == s.running
  {
    var compiled := if reuse.Some? then reuse.value else (next.source, next.config);
    s.(candidates := s.candidates[id := Candidate(next, compiled, port, transferPort, false, false, 0, 0)],
       pending := Some(id))
  }

  /** The pending candidate is stopped and struck. */
  function Discarded(s: State, id: Id): State
    requires id in s.candidates
  {
    s.(candidates := s.candidates[id := Stopped(s.candidates[id])], pending := None)
  }

  function StartReturns(s: State, task: Id, id: Id, ports: Option<(nat, Option<nat>)>): State
    requires task in s.tasks && s.tasks[task].Starting?
  {
    if ports.None? then Finish(s, task)
    else
      var next := s.tasks[task].next;
      var s1 := Registered(s, id, next, s.tasks[task].reuse, ports.value.0, ports.value.1);
      if s.shuttingDown then Finish(Discarded(s1, id), task)
      else s1.(tasks := s.tasks[task := Waiting(next, id)])
  }

  function HandOver(candidates: map<Id, Candidate>, from: Id, to: Id): (r: map<Id, Candidate>)
    requires from in candidates && to in candidates
    ensures r.Keys == candidates.Keys
  {
    var off := candidates[from := candidates[from].(dispatch := false)];
    off[to := off[to].(dispatch := true)]
  }

  /** The stable route and the right to dispatch move to a ready candidate. */
  function Routed(s: State, next: Project, id: Id): (r: State)
    requires id in s.candidates && s.running in s.candidates
    ensures r.candidates.Keys == s.candidates.Keys
  {
    s.(candidates := HandOver(s.candidates, s.running, id), running := id, pending := None, current := next,
       activePort := s.candidates[id].port, activeTransferPort := s.candidates[id].transferPort)
  }

  /** The watchers are reset and the old candidate is stopped; a throw in between leaves it behind. */
  function Retired(s: State, previous: Id, watchersThrow: bool): State
    requires previous in s.candidates
  {
    if watchersThrow then s.(lost := s.lost + {previous})
    else s.(candidates := s.candidates[previous := Stopped(s.candidates[previous])], succeeded := true)
  }

  /** History: which candidates have reported ready. */
  function Told(s: State, id: Id, ok: bool): State { if ok then s.(ready := s.ready + {id}) else s }

  function ReadyReturns(s: State, task: Id, ok: bool, watchersThrow: bool): State
    requires task in s.tasks && s.tasks[task].Waiting? && s.tasks[task].candidate in s.candidates
    requires s.running in s.candidates
  {
    var next, id, told := s.tasks[task].next, s.tasks[task].candidate, Told(s, s.tasks[task].candidate, ok);
    if !ok || s.shuttingDown then Finish(Discarded(told, id), task)
    else Finish(Retired(Routed(told, next, id), s.running, watchersThrow), task)
  }

  function Shutdown(s: State): State
    requires s.running in s.candidates && (s.pending.Some? ==> s.pending.value in s.candidates)
  {
    if s.shuttingDown then s
    else
      var first :=
        if s.pending.Some? then s.candidates[s.pending.value := Stopped(s.candidates[s.pending.value])]
        else s.candidates;
      s.(candidates := first[s.running := Stopped(first[s.running])], shuttingDown := true)
  }

  // ---- what holds at every yield point ----

  predicate Owned(s: State, id: Id)
    requires id in s.candidates
  {
    var c := s.candidates[id];
    && c.kills == c.closes == (if c.expected then 1 else 0)
    && (c.dispatch ==> id == s.running && !c.expected)
    && c.compiledFrom == (c.project.source, c.project.config)
    && (id == s.running || s.pending == Some(id) ==> id !in s.lost && (!c.expected <==> !s.shuttingDown))
    && (id != s.running && s.pending != Some(id) ==> (c.expected <==> id !in s.lost))
  }

  predicate TaskOk(s: State, task: Id)
    requires task in s.tasks
  {
    match s.tasks[task]
    case Reading => s.pending == None
    case Starting(next, reuse) =>
      && s.pending == None && s.startedAt <= next.version <= s.changes
      && (reuse.Some? ==> reuse.value == (next.source, next.config))
    case Waiting(next, id) =>
      && s.pending == Some(id) && id in s.candidates && s.candidates[id].project == next
      && s.startedAt <= next.version <= s.changes
  }

  ghost predicate Inv(s: State) {
    && s.running in s.candidates && s.running in s.ready
    && (s.pending.Some? ==> s.pending.value in s.candidates && s.pending.value != s.running && s.tasks != map[])
    && (forall id :: id in s.candidates ==> Owned(s, id))
    && s.lost <= s.candidates.Keys
    && (!s.shuttingDown ==> s.candidates[s.running].dispatch)
    && s.activePort == s.candidates[s.running].port && s.activeTransferPort == s.candidates[s.running].transferPort
    && s.current == s.candidates[s.running].project
    && (forall task :: task in s.tasks ==> TaskOk(s, task))
    && (forall t, u :: t in s.tasks && u in s.tasks ==> t == u)
    && (s.rebuilding <==> s.tasks != map[])
    && (s.dirty <==> s.changes > s.startedAt) && s.startedAt <= s.changes
    && (s.dirty && !s.shuttingDown ==> s.armed || s.rebuilding)
    && (s.succeeded ==> s.startedAt <= s.candidates[s.running].project.version <= s.changes && s.tasks == map[])
  }

  /** An event that can happen in a state: tasks are told the answer they wait for, new names are fresh, and a read
      sees at least the edits made before it began. */
  predicate Enabled(s: State, e: Event) {
    match e
    case Change => true
    case Timer(task) => s.armed && task !in s.tasks
    case Read(task, result) =>
      task in s.tasks && s.tasks[task].Reading?
      && (result.Some? ==> s.startedAt <= result.value.version <= s.changes)
    case Started(task, id, ports) => task in s.tasks && s.tasks[task].Starting? && id !in s.candidates
    case Ready(task, ok, throws) => task in s.tasks && s.tasks[task].Waiting?
    case Signal => true
  }

  function Apply(s: State, e: Event): State
    requires Inv(s) && Enabled(s, e)
  {
    match e
    case Change => OnChange(s)
    case Timer(task) => TimerFires(s, task)
    case Read(task, result) => ReadReturns(s, task, result)
    case Started(task, id, ports) => StartReturns(s, task, id, ports)
    case Ready(task, ok, throws) => assert TaskOk(s, task); ReadyReturns(s, task, ok, throws)
    case Signal => Shutdown(s)
  }

  /** The session once the first candidate serves and the handlers are installed. */
  function Booted(project: Project, id: Id, port: nat, transferPort: Option<nat>): State
  {
    var first := Candidate(project, (project.source, project.config), port, transferPort, false, true, 0, 0);
    State(map[id := first], id, None, project, port, transferPort,
          false, false, false, false, map[], 0, 0, false, {}, {id})
  }

  lemma BootedInv(project: Project, id: Id, port: nat, transferPort: Option<nat>)
    ensures Inv(Booted(project, id, port, transferPort))
  {
  }

  lemma ChangeKeeps(s: State)
    requires Inv(s)
    ensures Inv(OnChange(s))
  {
    hide Owned;
    var s' := OnChange(s);
    forall id | id in s'.candidates ensures Owned(s', id) { OwnedSame(s, s', id); }
    forall task | task in s'.tasks ensures TaskOk(s', task) { assert TaskOk(s, task); }
  }

  /** Ownership looks only at the candidates and at who runs, waits, or was lost. */
  lemma OwnedSame(s: State, s': State, id: Id)
    requires id in s.candidates && Owned(s, id) && id in s'.candidates && s'.candidates[id] == s.candidates[id]
    requires s'.running == s.running && s'.pending == s.pending && s'.shuttingDown == s.shuttingDown
    requires id in s'.lost <==> id in s.lost
    ensures Owned(s', id)
  {
  }

  lemma TimerKeeps(s: State, task: Id)
    requires Inv(s) && Enabled(s, Timer(task))
    ensures Inv(TimerFires(s, task))
  {
    hide Owned;
    var s' := TimerFires(s, task);
    forall id | id in s'.candidates ensures Owned(s', id) { OwnedSame(s, s', id); }
    forall t | t in s'.tasks ensures TaskOk(s', t) { if t in s.tasks { assert TaskOk(s, t); } }
    if s'.rebuilding { assert task in s'.tasks || s.tasks != map[]; }
  }

  /** The one task there is. */
  lemma OnlyTask(s: State, task: Id)
    requires Inv(s) && task in s.tasks
    ensures s.tasks - {task} == map[] && s.rebuilding && TaskOk(s, task)
  {
  }

  lemma FinishKeeps(s: State, task: Id)
    requires Inv(s) && task in s.tasks && s.pending == None
    ensures Inv(Finish(s, task))
  {
    hide Owned, TaskOk;
    OnlyTask(s, task);
    var s' := Finish(s, task);
    forall id | id in s'.candidates ensures Owned(s', id) { OwnedSame(s, s', id); }
  }

  lemma ReadKeeps(s: State, task: Id, result: Option<Project>)
    requires Inv(s) && Enabled(s, Read(task, result))
    ensures Inv(ReadReturns(s, task, result))
  {
    hide Owned;
    OnlyTask(s, task);
    if result.None? {
      FinishKeeps(s, task);
    } else {
      var s' := ReadReturns(s, task, result);
      CompiledFromRunning(s);
      assert s'.tasks == map[task := s'.tasks[task]];
      forall id | id in s'.candidates ensures Owned(s', id) { OwnedSame(s, s', id); }
    }
  }

  /** The compiled binary is kept exactly when neither the source nor the config has changed. */
  lemma AssetOnlyReuses(s: State, task: Id, next: Project)
    requires Inv(s) && Enabled(s, Read(task, Some(next)))
    ensures var t := Apply(s, Read(task, Some(next)));
            && task in t.tasks && t.tasks[task].Starting? && t.tasks[task].next == next
            && t.tasks[task].reuse == if next.source == s.current.source && next.config == s.current.config
                                      then Some((next.source, next.config)) else None
  {
    CompiledFromRunning(s);
  }

  lemma CompiledFromRunning(s: State)
    requires Inv(s)
    ensures s.candidates[s.running].compiledFrom == (s.current.source, s.current.config)
  {
    assert Owned(s, s.running);
  }

  lemma StartKeeps(s: State, task: Id, id: Id, ports: Option<(nat, Option<nat>)>)
    requires Inv(s) && Enabled(s, Started(task, id, ports))
    ensures Inv(StartReturns(s, task, id, ports))
  {
    OnlyTask(s, task);
    if ports.None? {
      FinishKeeps(s, task);
    } else {
      var s' := StartReturns(s, task, id, ports);
      if s.shuttingDown {
        assert s'.tasks == map[];
        forall c | c in s'.candidates ensures Owned(s', c) {
          if c != id { assert Owned(s, c); OwnedSame(s, s', c); }
        }
      } else {
        assert s'.tasks == map[task := s'.tasks[task]];
        forall c | c in s'.candidates ensures Owned(s', c) {
          if c != id { assert Owned(s, c); }
        }
      }
    }
  }

  lemma DiscardKeeps(s: State, task: Id)
    requires Inv(s) && task in s.tasks && s.tasks[task].Waiting? && s.tasks[task].candidate in s.candidates
    requires s.pending == Some(s.tasks[task].candidate)
    ensures Inv(Finish(Discarded(s, s.tasks[task].candidate), task))
  {
    OnlyTask(s, task);
    var id := s.tasks[task].candidate;
    var s' := Finish(Discarded(s, id), task);
    assert s'.tasks == map[];
    assert Owned(s, id) && Owned(s, s.running);
    forall c | c in s'.candidates ensures Owned(s', c) { assert Owned(s, c); }
  }

  lemma ToldKeeps(s: State, id: Id, ok: bool)
    requires Inv(s)
    ensures Inv(Told(s, id, ok))
  {
    hide Owned;
    var s' := Told(s, id, ok);
    forall c | c in s'.candidates ensures Owned(s', c) { OwnedSame(s, s', c); }
    forall task | task in s'.tasks ensures TaskOk(s', task) { assert TaskOk(s, task); }
  }

  lemma ReadyKeeps(s: State, task: Id, ok: bool, watchersThrow: bool)
    requires Inv(s) && Enabled(s, Ready(task, ok, watchersThrow))
    ensures TaskOk(s, task) && Inv(ReadyReturns(s, task, ok, watchersThrow))
  {
    OnlyTask(s, task);
    if !ok || s.shuttingDown {
      ToldKeeps(s, s.tasks[task].candidate, ok);
      DiscardKeeps(Told(s, s.tasks[task].candidate, ok), task);
    } else {
      var s' := ReadyReturns(s, task, ok, watchersThrow);
      assert s'.tasks == map[];
      assert Owned(s, s.tasks[task].candidate) && Owned(s, s.running);
      forall c | c in s'.candidates ensures Owned(s', c) { assert Owned(s, c); }
    }
  }

  lemma SignalKeeps(s: State)
    requires Inv(s)
    ensures Inv(Shutdown(s))
  {
    var s' := Shutdown(s);
    forall c | c in s'.candidates ensures Owned(s', c) { assert Owned(s, c); }
    forall t | t in s'.tasks ensures TaskOk(s', t) { assert TaskOk(s, t); }
  }

  lemma ApplyKeeps(s: State, e: Event)
    requires Inv(s) && Enabled(s, e)
    ensures Inv(Apply(s, e))
  {
    hide Inv, OnChange, TimerFires, ReadReturns, StartReturns, ReadyReturns, Shutdown;
    match e
    case Change => ChangeKeeps(s);
    case Timer(task) => TimerKeeps(s, task);
    case Read(task, result) => ReadKeeps(s, task, result);
    case Started(task, id, ports) => StartKeeps(s, task, id, ports);
    case Ready(task, ok, throws) => ReadyKeeps(s, task, ok, throws);
    case Signal => SignalKeeps(s);
  }

  // ---- whole sessions ----

  /** The state after a sequence of events; an event that cannot happen is passed over. */
  ghost function Run(s: State, events: seq<Event>): State
    requires Inv(s)
    decreases |events|
  {
    if events == [] then s
    else if Enabled(s, events[0]) then
      ApplyKeeps(s, events[0]);
      Run(Apply(s, events[0]), events[1..])
    else Run(s, events[1..])
  }

  /** The invariant holds after any sequence of events. */
  lemma {:induction false} RunKeeps(s: State, events: seq<Event>)
    requires Inv(s)
    ensures Inv(Run(s, events))
    decreases |events|
  {
    hide Inv, Enabled, Apply;
    if events != [] {
      if Enabled(s, events[0]) {
        ApplyKeeps(s, events[0]);
        RunKeeps(Apply(s, events[0]), events[1..]);
      } else {
        RunKeeps(s, events[1..]);
      }
    }
  }

  ghost function Session(project: Project, id: Id, port: nat, transferPort: Option<nat>, events: seq<Event>): (t: State)
    ensures t.running in t.candidates
  {
    SessionKeeps(project, id, port, transferPort, events);
    Run(Booted(project, id, port, transferPort), events)
  }

  lemma SessionKeeps(project: Project, id: Id, port: nat, transferPort: Option<nat>, events: seq<Event>)
    ensures Inv(Booted(project, id, port, transferPort)) && Inv(Run(Booted(project, id, port, transferPort), events))
  {
    BootedInv(project, id, port, transferPort);
    RunKeeps(Booted(project, id, port, transferPort), events);
  }

  lemma OneRebuild(project: Project, id: Id, port: nat, transferPort: Option<nat>, events: seq<Event>)
    ensures var t := Session(project, id, port, transferPort, events);
            forall a, b :: a in t.tasks && b in t.tasks ==> a == b
  {
    SessionKeeps(project, id, port, transferPort, events);
  }

  predicate Exactly1(a: bool, b: bool, c: bool, d: bool) {
    (a && !b && !c && !d) || (!a && b && !c && !d) || (!a && !b && c && !d) || (!a && !b && !c && d)
  }

  /** Every candidate is exactly one of running, pending, stopped or lost; it was killed, and its broker closed, at
      most once; only the running one can dispatch; an asset-only refresh never serves a binary of other source; and the
      route names a candidate that reported ready and, until shutdown, is not stopped. */
  lemma Ownership(project: Project, id: Id, port: nat, transferPort: Option<nat>, events: seq<Event>, c: Id)
    requires c in Session(project, id, port, transferPort, events).candidates
    ensures var t := Session(project, id, port, transferPort, events);
            var k := t.candidates[c];
            && Exactly1(c == t.running && !k.expected, t.pending == Some(c) && !k.expected, k.expected, c in t.lost)
            && k.kills == k.closes <= 1 && (k.expected <==> k.kills == 1)
            && (k.dispatch ==> c == t.running)
            && t.activePort == t.candidates[t.running].port
            && t.activeTransferPort == t.candidates[t.running].transferPort
            && t.running in t.ready && (!t.shuttingDown ==> !t.candidates[t.running].expected)
            && k.compiledFrom == (k.project.source, k.project.config)
  {
    SessionKeeps(project, id, port, transferPort, events);
    var t := Session(project, id, port, transferPort, events);
    assert Owned(t, c) && Owned(t, t.running);
  }

  /** A switch in which resetting the watchers threw. */
  predicate Threw(s: State, e: Event)
    requires Enabled(s, e)
  {
    e.Ready? && e.ok && e.watchersThrow && !s.shuttingDown
  }

  ghost predicate SomeSwitchThrew(s: State, events: seq<Event>)
    requires Inv(s)
    decreases |events|
  {
    if events == [] then false
    else if Enabled(s, events[0]) then
      ApplyKeeps(s, events[0]);
      Threw(s, events[0]) || SomeSwitchThrew(Apply(s, events[0]), events[1..])
    else SomeSwitchThrew(s, events[1..])
  }

  ghost predicate SwitchThrewIn(project: Project, id: Id, port: nat, transferPort: Option<nat>, events: seq<Event>) {
    BootedInv(project, id, port, transferPort);
    SomeSwitchThrew(Booted(project, id, port, transferPort), events)
  }

  lemma ApplyLost(s: State, e: Event)
    requires Inv(s) && Enabled(s, e)
    ensures Apply(s, e).lost == if Threw(s, e) then s.lost + {s.running} else s.lost
    ensures s.running !in s.lost
    ensures s.candidates.Keys <= Apply(s, e).candidates.Keys
  {
    hide Owned, TaskOk, ReadyReturns, Stopped;
    RunningKept(s);
    RunningKnown(s);
    hide Inv;
    if e.Ready? { ReadyLost(s, e.task, e.ok, e.watchersThrow); }
  }

  lemma RunningKept(s: State)
    requires Inv(s)
    ensures s.running !in s.lost
  {
    assert Owned(s, s.running);
  }

  lemma ReadyLost(s: State, task: Id, ok: bool, watchersThrow: bool)
    requires Inv(s) && Enabled(s, Ready(task, ok, watchersThrow))
    ensures TaskOk(s, task)
    ensures var s' := ReadyReturns(s, task, ok, watchersThrow);
            && s'.lost == (if ok && watchersThrow && !s.shuttingDown then s.lost + {s.running} else s.lost)
            && s.candidates.Keys <= s'.candidates.Keys
  {
    hide Owned;
  }

  /** A lost candidate stays lost, and another one is lost exactly when a switch threw. */
  lemma {:induction false} RunLost(s: State, events: seq<Event>)
    requires Inv(s)
    ensures s.lost <= Run(s, events).lost && s.candidates.Keys <= Run(s, events).candidates.Keys
    ensures Run(s, events).lost != s.lost ==> SomeSwitchThrew(s, events)
    ensures SomeSwitchThrew(s, events) ==> Run(s, events).lost != s.lost
    decreases |events|
  {
    hide Inv, Enabled, Apply, Threw;
    if events != [] {
      if Enabled(s, events[0]) {
        ApplyKeeps(s, events[0]);
        ApplyLost(s, events[0]);
        RunLost(Apply(s, events[0]), events[1..]);
      } else {
        RunLost(s, events[1..]);
      }
    }
  }

  /** Once shutdown has run and the task in flight has ended, everything is stopped, wherever the signal landed,
      exactly when no switch ever threw while resetting its watchers. */
  lemma ShutdownStopsAll(project: Project, id: Id, port: nat, transferPort: Option<nat>, events: seq<Event>)
    ensures var t := Session(project, id, port, transferPort, events);
            t.shuttingDown && t.tasks == map[] ==>
              ((forall c :: c in t.candidates ==> t.candidates[c].expected)
               <==> !SwitchThrewIn(project, id, port, transferPort, events))
  {
    SessionKeeps(project, id, port, transferPort, events);
    var s := Booted(project, id, port, transferPort);
    RunLost(s, events);
    var t := Session(project, id, port, transferPort, events);
    if t.shuttingDown && t.tasks == map[] {
      forall c | c in t.candidates ensures t.candidates[c].expected <==> c !in t.lost { assert Owned(t, c); }
      if t.lost != {} {
        var c :| c in t.lost;
        assert c in t.candidates;
      }
    }
  }

  /** The events of one rebuild that nothing disturbs. */
  function Rebuild(task: Id, next: Project, id: Id, port: nat, transferPort: Option<nat>): seq<Event> {
    UpToReady(task, next, id, port, transferPort) + [Ready(task, true, false)]
  }

  function UpToReady(task: Id, next: Project, id: Id, port: nat, transferPort: Option<nat>): seq<Event> {
    [Change, Timer(task), Read(task, Some(next)), Started(task, id, Some((port, transferPort)))]
  }

  function Waiter(s: State, task: Id, next: Project, id: Id, port: nat, transferPort: Option<nat>): State
    requires s.running in s.candidates && !s.rebuilding && !s.shuttingDown
  {
    StartReturns(ReadReturns(TimerFires(OnChange(s), task), task, Some(next)), task, id, Some((port, transferPort)))
  }

  lemma WaiterIs(s: State, task: Id, next: Project, id: Id, port: nat, transferPort: Option<nat>)
    requires s.running in s.candidates && !s.rebuilding && !s.shuttingDown && s.tasks == map[] && id !in s.candidates
    ensures var t := Waiter(s, task, next, id, port, transferPort);
            && t.tasks == map[task := Waiting(next, id)] && t.running == s.running
            && s.running in t.candidates && id in t.candidates
            && t.candidates[id].port == port && t.candidates[id].transferPort == transferPort
            && t.candidates[id].project == next && !t.candidates[id].expected
            && !t.shuttingDown && !t.dirty && !t.armed
  {
  }

  lemma SwitchIs(s: State, task: Id, next: Project, id: Id)
    requires s.tasks == map[task := Waiting(next, id)]
    requires s.running in s.candidates && id in s.candidates && id != s.running
    requires !s.shuttingDown && !s.dirty && !s.armed
    ensures var t := ReadyReturns(s, task, true, false);
            && t.running == id && id in t.candidates && t.candidates[id] == s.candidates[id].(dispatch := true)
            && t.activePort == s.candidates[id].port && t.activeTransferPort == s.candidates[id].transferPort
            && t.current == next && t.succeeded && !t.dirty && !t.armed && t.tasks == map[]
            && s.running in t.candidates && t.candidates[s.running].expected
  {
  }

  /** From any state at rest, an edit followed by an undisturbed rebuild is served, and the candidate before it
      stopped. */
  lemma EditServed(s: State, task: Id, next: Project, id: Id, port: nat, transferPort: Option<nat>)
    requires Inv(s) && s.tasks == map[] && !s.shuttingDown
    requires next.version == s.changes + 1 && id !in s.candidates
    ensures var t := Run(s, Rebuild(task, next, id, port, transferPort));
            && t.running == id && id in t.candidates && t.candidates[id].project == next && t.candidates[id].dispatch
            && t.activePort == port && t.activeTransferPort == transferPort && t.current == next
            && t.succeeded && !t.dirty && !t.armed && t.tasks == map[]
            && s.running in t.candidates && t.candidates[s.running].expected
  {
    hide Run, ReadyReturns;
    RunningKnown(s);
    assert !s.rebuilding;
    WaiterIs(s, task, next, id, port, transferPort);
    SwitchIs(Waiter(s, task, next, id, port, transferPort), task, next, id);
    var w := Waiter(s, task, next, id, port, transferPort);
    RebuildRuns(s, task, next, id, port, transferPort, [Ready(task, true, false)]);
    RunOne(w, Ready(task, true, false), []);
    NoMore(ReadyReturns(w, task, true, false));
    assert [Ready(task, true, false)] + [] == [Ready(task, true, false)];
  }

  // ---- from any state ----

  /** A step of a rebuild that goes well: the timer fires, the project is read, a candidate starts and is ready. */
  predicate GoesWell(s: State, e: Event) {
    && Enabled(s, e)
    && match e
       case Timer(_) => true
       case Read(_, result) => result.Some?
       case Started(_, _, ports) => ports.Some?
       case Ready(_, ok, throws) => ok && !throws
       case _ => false
  }

  ghost predicate AllGoWell(s: State, events: seq<Event>)
    requires Inv(s)
    decreases |events|
  {
    events == []
    || (&& GoesWell(s, events[0])
        && (ApplyKeeps(s, events[0]); AllGoWell(Apply(s, events[0]), events[1..])))
  }

  predicate AtRest(s: State) { !s.armed && s.tasks == map[] }

  predicate Reads(s: State) { exists task :: task in s.tasks && s.tasks[task].Reading? }

  predicate Starts(s: State) { exists task :: task in s.tasks && s.tasks[task].Starting? }

  /** The most such steps that can follow: those of the rebuild in flight, and those of the one that is still due. */
  function Ahead(s: State): nat {
    (if s.tasks == map[] then 0 else if Reads(s) then 4 else if Starts(s) then 3 else 2)
    + (if s.dirty || s.armed then 5 else 0) + (if s.armed then 1 else 0)
  }

  lemma PhaseOf(s: State, task: Id)
    requires Inv(s) && task in s.tasks
    ensures Reads(s) <==> s.tasks[task].Reading?
    ensures Starts(s) <==> s.tasks[task].Starting?
    ensures s.tasks != map[]
  {
    hide Owned, TaskOk;
  }

  lemma WellAhead(s: State, e: Event)
    requires Inv(s) && !s.shuttingDown && GoesWell(s, e)
    ensures Ahead(Apply(s, e)) < Ahead(s)
    ensures var t := Apply(s, e); !t.shuttingDown && t.changes == s.changes && (t.tasks != map[] || t.succeeded)
  {
    ApplyKeeps(s, e);
    var t := Apply(s, e);
    hide Inv, Reads, Starts, Owned, TaskOk, Stopped, HandOver;
    TaskFacts(s, e);
    match e
    case Timer(task) => if !s.rebuilding { PhaseOf(t, task); }
    case Read(task, result) => PhaseOf(s, task); PhaseOf(t, task);
    case Started(task, id, ports) => PhaseOf(s, task); PhaseOf(t, task);
    case Ready(task, ok, throws) => PhaseOf(s, task);
    case _ =>
  }

  lemma TaskFacts(s: State, e: Event)
    requires Inv(s) && Enabled(s, e)
    ensures s.running in s.candidates && (s.rebuilding <==> s.tasks != map[])
    ensures e.Read? || e.Started? || e.Ready? ==> e.task in s.tasks && s.tasks - {e.task} == map[]
    ensures e.Ready? ==> s.tasks[e.task].candidate in s.candidates
  {
    hide Owned;
    if e.Read? || e.Started? || e.Ready? { OnlyTask(s, e.task); }
  }

  lemma {:induction false} WellRun(s: State, events: seq<Event>)
    requires Inv(s) && !s.shuttingDown && AllGoWell(s, events)
    ensures var t := Run(s, events);
            && Inv(t) && !t.shuttingDown && t.changes == s.changes && |events| + Ahead(t) <= Ahead(s)
            && (events != [] ==> t.tasks != map[] || t.succeeded)
    decreases |events|
  {
    hide Inv, Ahead, Enabled, Apply;
    if events != [] {
      ApplyKeeps(s, events[0]);
      WellAhead(s, events[0]);
      WellRun(Apply(s, events[0]), events[1..]);
      if events[1..] == [] { NoMore(Apply(s, events[0])); }
    }
  }

  lemma FreshId(ids: set<Id>) returns (id: Id)
    ensures forall other :: other in ids ==> other < id
  {
    id := 0;
    if ids != {} {
      var some :| some in ids;
      var rest := FreshId(ids - {some});
      id := if some < rest then rest else some + 1;
      forall other | other in ids ensures other < id { if other != some { assert other in ids - {some}; } }
    }
  }

  /** Short of rest, something can go well next. */
  lemma SomethingLeft(s: State) returns (e: Event)
    requires Inv(s) && !s.shuttingDown && !AtRest(s)
    ensures GoesWell(s, e)
  {
    hide Owned, TaskOk;
    var id := FreshId(s.candidates.Keys);
    var free := FreshId(s.tasks.Keys);
    if s.tasks == map[] {
      e := Timer(free);
    } else {
      var task :| task in s.tasks;
      e := match s.tasks[task]
        case Reading => Read(task, Some(Project("", "", s.changes)))
        case Starting(_, _) => Started(task, id, Some((0, None)))
        case Waiting(_, _) => Ready(task, true, false);
    }
  }

  /** The newest edit is what the route serves. */
  predicate ServesLatest(s: State)
    requires s.running in s.candidates
  {
    var c := s.candidates[s.running];
    && !s.dirty && c.project.version == s.changes && s.current == c.project
    && c.dispatch && !c.expected && s.activePort == c.port && s.activeTransferPort == c.transferPort
  }

  lemma RestServes(s: State)
    requires Inv(s) && !s.shuttingDown && AtRest(s) && s.succeeded
    ensures ServesLatest(s)
  {
    assert Owned(s, s.running);
  }

  /**
   * From every state a session can be in before shutdown, in the middle of a rebuild too, with the timer armed or an
   * edit waiting: as long as everything goes well and no edit or signal comes, in whatever order things happen, the
   * session comes to rest after at most ten steps, and it then serves the newest edit.
   */
  lemma Settles(s: State, events: seq<Event>)
    requires Inv(s) && !s.shuttingDown && AllGoWell(s, events)
    ensures |events| <= 10 && Inv(Run(s, events)) && Run(s, events).changes == s.changes
    ensures var t := Run(s, events);
            if AtRest(t) then events != [] ==> t.running in t.candidates && ServesLatest(t)
            else exists e :: GoesWell(t, e)
  {
    hide Inv, Run, AllGoWell, ServesLatest, GoesWell;
    WellRun(s, events);
    var t := Run(s, events);
    RunningKnown(t);
    if !AtRest(t) {
      var e := SomethingLeft(t);
    } else if events != [] {
      RestServes(t);
    }
  }

  lemma RebuildRuns(s: State, task: Id, next: Project, id: Id, port: nat, transferPort: Option<nat>, rest: seq<Event>)
    requires Inv(s) && s.tasks == map[] && !s.shuttingDown && !s.rebuilding && s.running in s.candidates
    requires next.version == s.changes + 1 && id !in s.candidates
    ensures var w := Waiter(s, task, next, id, port, transferPort);
            && Inv(w) && w.tasks == map[task := Waiting(next, id)]
            && Run(s, UpToReady(task, next, id, port, transferPort) + rest) == Run(w, rest)
  {
    hide Run, Inv;
    var read, started := Read(task, Some(next)), Started(task, id, Some((port, transferPort)));
    WaiterIs(s, task, next, id, port, transferPort);
    assert UpToReady(task, next, id, port, transferPort) + rest
           == [Change] + ([Timer(task)] + ([read] + ([started] + rest)));
    RunOne(s, Change, [Timer(task)] + ([read] + ([started] + rest)));
    var s1 := OnChange(s);
    RunOne(s1, Timer(task), [read] + ([started] + rest));
    var s2 := TimerFires(s1, task);
    RunOne(s2, read, [started] + rest);
    var s3 := ReadReturns(s2, task, Some(next));
    RunOne(s3, started, rest);
  }

  lemma NoMore(s: State)
    requires Inv(s)
    ensures Run(s, []) == s
  {
  }

  lemma RunOne(s: State, e: Event, rest: seq<Event>)
    requires Inv(s) && Enabled(s, e)
    ensures Inv(Apply(s, e)) && Run(s, [e] + rest) == Run(Apply(s, e), rest)
  {
    ApplyKeeps(s, e);
    assert ([e] + rest)[1..] == rest;
  }

  lemma ThrowThenSignal(s: State, task: Id, next: Project, id: Id)
    requires Inv(s) && s.tasks == map[task := Waiting(next, id)] && id in s.candidates && !s.shuttingDown
    ensures TaskOk(s, task) && Inv(ReadyReturns(s, task, true, true))
    ensures var t := Shutdown(ReadyReturns(s, task, true, true));
            && t.shuttingDown && t.tasks == map[] && s.running in t.candidates && !t.candidates[s.running].expected
  {
    ReadyKeeps(s, task, true, true);
    assert Owned(s, s.running) && TaskOk(s, task);
  }

  /** A switch whose watchers throw, then a signal: the first candidate is never stopped. */
  lemma LeftRunning()
    ensures var project, next := Project("source", "config", 0), Project("edited", "config", 1);
            var events := UpToReady(0, next, 1, 8001, None) + [Ready(0, true, true), Signal];
            var t := Session(project, 0, 8000, None, events);
            && t.shuttingDown && t.tasks == map[] && 0 in t.candidates && !t.candidates[0].expected
            && SwitchThrewIn(project, 0, 8000, None, events)
  {
    hide Run, Inv, ReadyReturns, Shutdown;
    var project, next := Project("source", "config", 0), Project("edited", "config", 1);
    var events := UpToReady(0, next, 1, 8001, None) + [Ready(0, true, true), Signal];
    var s := Booted(project, 0, 8000, None);
    BootedInv(project, 0, 8000, None);
    RebuildRuns(s, 0, next, 1, 8001, None, [Ready(0, true, true), Signal]);
    var w := Waiter(s, 0, next, 1, 8001, None);
    WaiterIs(s, 0, next, 1, 8001, None);
    ThrowThenSignal(w, 0, next, 1);
    var u := ReadyReturns(w, 0, true, true);
    RunOne(w, Ready(0, true, true), [Signal]);
    RunningKnown(u);
    RunOne(u, Signal, []);
    NoMore(Shutdown(u));
    assert [Ready(0, true, true)] + [Signal] == [Ready(0, true, true), Signal] && [Signal] + [] == [Signal];
    ShutdownStopsAll(project, 0, 8000, None, events);
  }

  lemma RunningKnown(s: State)
    requires Inv(s)
    ensures s.running in s.candidates && (s.pending.Some? ==> s.pending.value in s.candidates)
  {
  }

  // ---- the handlers, in place ----

  /** The closures of `runDev` and the variables they share. */
  class Coordinator {
    var candidates: map<Id, Candidate>
    var running: Id
    var pendingCandidate: Option<Id>
    var current: Project
    var activePort: nat
    var activeTransferPort: Option<nat>
    var pending: bool
    var rebuilding: bool
    var dirty: bool
    var shuttingDown: bool
    var tasks: map<Id, Phase>
    ghost var changes: nat
    ghost var startedAt: nat
    ghost var succeeded: bool
    ghost var lost: set<Id>
    ghost var ready: set<Id>

    ghost function Value(): State
      reads this
    {
      State(candidates, running, pendingCandidate, current, activePort, activeTransferPort, pending, rebuilding, dirty,
            shuttingDown, tasks, changes, startedAt, succeeded, lost, ready)
    }

    constructor (project: Project, id: Id, port: nat, transferPort: Option<nat>)
      ensures Value() == Booted(project, id, port, transferPort) && Inv(Value())
    {
      var first := Candidate(project, (project.source, project.config), port, transferPort, false, true, 0, 0);
      candidates := map[id := first];
      running, pendingCandidate, current := id, None, project;
      activePort, activeTransferPort := port, transferPort;
      pending, rebuilding, dirty, shuttingDown, tasks := false, false, false, false, map[];
      changes, startedAt, succeeded, lost, ready := 0, 0, false, {}, {id};
      new;
      BootedInv(project, id, port, transferPort);
    }

    /** Kills the candidate and closes its broker, if that was not done before, and takes its right to dispatch. */
    method StopCandidate(id: Id)
      requires id in candidates
      modifies this`candidates
      ensures candidates.Keys == old(candidates).Keys
      ensures forall other :: other in candidates && other != id ==> candidates[other] == old(candidates)[other]
      ensures candidates[id].expected
      ensures old(candidates[id]).expected ==> candidates == old(candidates)
      ensures var was, now := old(candidates[id]), candidates[id];
              && (was.kills == was.closes == (if was.expected then 1 else 0) ==> now.kills == now.closes == 1)
              && ((was.expected ==> !was.dispatch) ==> !now.dispatch)
              && now == was.(expected := true, dispatch := now.dispatch, kills := now.kills, closes := now.closes)
      ensures candidates == old(candidates)[id := Stopped(old(candidates)[id])]
    {
      var c := candidates[id];
      if c.expected { return; }
      c := c.(expected := true);
      c := c.(dispatch := false);
      c := c.(kills := c.kills + 1);
      c := c.(closes := c.closes + 1);
      candidates := candidates[id := c];
    }

    /** Arms the debounce timer; also called when a task ends and finds the project dirty. */
    method Arm()
      modifies this`dirty, this`pending
      ensures dirty && pending
    {
      dirty := true;
      pending := true;
    }

    method OnFileChange()
      requires Inv(Value())
      modifies this
      ensures Value() == OnChange(old(Value())) && Inv(Value())
    {
      hide Inv;
      ChangeKeeps(Value());
      changes := changes + 1;
      Arm();
    }

    method EndTask(task: Id)
      modifies this`rebuilding, this`tasks, this`dirty, this`pending
      ensures Value() == Finish(old(Value()), task)
    {
      rebuilding := false;
      tasks := tasks - {task};
      if dirty && !shuttingDown { Arm(); }
    }

    method OnTimer(task: Id)
      requires Inv(Value()) && Enabled(Value(), Timer(task))
      modifies this
      ensures Value() == TimerFires(old(Value()), task) && Inv(Value())
    {
      hide Inv, Enabled;
      TimerKeeps(Value(), task);
      pending := false;
      if rebuilding || shuttingDown { return; }
      rebuilding := true;
      dirty := false;
      startedAt, succeeded := changes, false;
      tasks := tasks[task := Reading];
    }

    method OnRead(task: Id, result: Option<Project>)
      requires Inv(Value()) && Enabled(Value(), Read(task, result))
      modifies this
      ensures Value() == ReadReturns(old(Value()), task, result) && Inv(Value())
    {
      hide Inv, TaskOk;
      RunningKnown(Value());
      ReadKeeps(Value(), task, result);
      if result.None? {
        EndTask(task);
        return;
      }
      var next := result.value;
      var assetOnly := IsAssetOnlyRefresh(current, next);
      var reuse := if assetOnly then Some(candidates[running].compiledFrom) else None;
      tasks := tasks[task := Starting(next, reuse)];
    }

    method OnStarted(task: Id, id: Id, ports: Option<(nat, Option<nat>)>)
      requires Inv(Value()) && Enabled(Value(), Started(task, id, ports))
      modifies this
      ensures Value() == StartReturns(old(Value()), task, id, ports) && Inv(Value())
    {
      hide Inv, TaskOk, Registered, Discarded, Finish;
      StartKeeps(Value(), task, id, ports);
      if ports.None? {
        EndTask(task);
        return;
      }
      var next, reuse := tasks[task].next, tasks[task].reuse;
      Register(id, next, reuse, ports.value.0, ports.value.1);
      if shuttingDown {
        Discard(id);
        EndTask(task);
        return;
      }
      tasks := tasks[task := Waiting(next, id)];
    }

    method Register(id: Id, next: Project, reuse: Option<(string, string)>, port: nat, transferPort: Option<nat>)
      modifies this`candidates, this`pendingCandidate
      ensures Value() == Registered(old(Value()), id, next, reuse, port, transferPort)
    {
      var compiled := if reuse.Some? then reuse.value else (next.source, next.config);
      candidates := candidates[id := Candidate(next, compiled, port, transferPort, false, false, 0, 0)];
      pendingCandidate := Some(id);
    }

    method Discard(id: Id)
      requires id in candidates
      modifies this`candidates, this`pendingCandidate
      ensures Value() == Discarded(old(Value()), id)
    {
      StopCandidate(id);
      pendingCandidate := None;
    }

    method OnReady(task: Id, ok: bool, watchersThrow: bool)
      requires Inv(Value()) && Enabled(Value(), Ready(task, ok, watchersThrow))
      modifies this
      ensures TaskOk(old(Value()), task)
      ensures Value() == ReadyReturns(old(Value()), task, ok, watchersThrow) && Inv(Value())
    {
      hide Inv, Owned, HandOver, Retired, Discarded, Finish, Told;
      RunningKnown(Value());
      ReadyKeeps(Value(), task, ok, watchersThrow);
      var next, id := tasks[task].next, tasks[task].candidate;
      Hear(id, ok);
      if !ok || shuttingDown {
        Discard(id);
        EndTask(task);
        return;
      }
      var previous := running;
      ghost var s := Value();
      Route(next, id);
      assert Value() == Routed(s, next, id);
      Retire(previous, watchersThrow);
      EndTask(task);
    }

    ghost method Hear(id: Id, ok: bool)
      modifies this`ready
      ensures Value() == Told(old(Value()), id, ok)
    {
      if ok { ready := ready + {id}; }
    }

    method Route(next: Project, id: Id)
      requires id in candidates && running in candidates
      modifies this`candidates, this`running, this`pendingCandidate, this`current
      modifies this`activePort, this`activeTransferPort
      ensures candidates == HandOver(old(candidates), old(running), id)
      ensures running == id && pendingCandidate == None && current == next
      ensures activePort == old(candidates)[id].port && activeTransferPort == old(candidates)[id].transferPort
    {
      hide HandOver, Value;
      HandOverDispatch(id);
      running := id;
      pendingCandidate := None;
      current := next;
      activePort := candidates[id].port;
      activeTransferPort := candidates[id].transferPort;
    }

    method HandOverDispatch(id: Id)
      requires id in candidates && running in candidates
      modifies this`candidates
      ensures candidates == HandOver(old(candidates), running, id) && id in candidates
      ensures candidates[id].port == old(candidates)[id].port
      ensures candidates[id].transferPort == old(candidates)[id].transferPort
    {
      candidates := candidates[running := candidates[running].(dispatch := false)];
      candidates := candidates[id := candidates[id].(dispatch := true)];
    }

    method Retire(previous: Id, watchersThrow: bool)
      requires previous in candidates
      modifies this`candidates, this`succeeded, this`lost
      ensures Value() == Retired(old(Value()), previous, watchersThrow)
    {
      if watchersThrow {
        lost := lost + {previous};
      } else {
        StopCandidate(previous);
        succeeded := true;
      }
    }

    method OnSignal()
      requires Inv(Value())
      modifies this
      ensures Value() == Shutdown(old(Value())) && Inv(Value())
    {
      hide Inv, TaskOk, Stopped;
      RunningKnown(Value());
      SignalKeeps(Value());
      if shuttingDown { return; }
      shuttingDown := true;
      if pendingCandidate.Some? { StopCandidate(pendingCandidate.value); }
      StopCandidate(running);
    }
  }
}
