/** What becomes of the edits of a dev session, told by its events. */
module DevEdits {
  import opened Options
  import opened DevReload

  /** How many edits there were. */
  function Edits(events: seq<Event>): nat
    decreases |events|
  {
    if events == [] then 0 else (if events[0].Change? then 1 else 0) + Edits(events[1..])
  }

  /** Event `i` is the timer, and a rebuild begins. */
  ghost predicate Begins(start: State, events: seq<Event>, i: nat)
    requires Inv(start)
  {
    && i < |events| && events[i].Timer?
    && var s := Run(start, events[..i]);
    Enabled(s, events[i]) && !s.rebuilding && !s.shuttingDown
  }

  predicate NoEditAfter(events: seq<Event>, i: nat) { forall k :: i < k < |events| ==> !events[k].Change? }

  /** A rebuild has begun; after the last edit, if `latest`. */
  ghost predicate Began(start: State, events: seq<Event>, latest: bool)
    requires Inv(start)
  {
    exists i: nat :: Begins(start, events, i) && (latest ==> NoEditAfter(events, i))
  }

  predicate Reads(e: Event, project: Project) { e.Read? && e.result == Some(project) }

  /** `project` is what a rebuild read; one that began after the last edit, if `latest`. */
  ghost predicate ReadBy(start: State, events: seq<Event>, project: Project, latest: bool)
    requires Inv(start)
  {
    exists i: nat, j: nat :: Begins(start, events, i) && (latest ==> NoEditAfter(events, i))
                   && i < j < |events| && Reads(events[j], project)
  }

  /** Where the state of a session comes from. */
  ghost predicate Traced(start: State, events: seq<Event>, t: State)
    requires Inv(start)
  {
    && t.changes == start.changes + Edits(events)
    && (Edits(events) > 0 && !t.dirty ==> Began(start, events, true))
    && (forall task :: task in t.tasks ==>
          if t.tasks[task].Reading? then Began(start, events, !t.dirty)
          else ReadBy(start, events, t.tasks[task].next, !t.dirty))
    && (t.succeeded ==> ReadBy(start, events, t.current, !t.dirty))
  }

  lemma {:induction false} EditsAppend(events: seq<Event>, e: Event)
    ensures Edits(events + [e]) == Edits(events) + if e.Change? then 1 else 0
    decreases |events|
  {
    if events == [] {
      assert events + [e] == [e] && [e][1..] == [];
    } else {
      assert (events + [e])[1..] == events[1..] + [e];
      EditsAppend(events[1..], e);
    }
  }

  lemma {:induction false} RunAppend(s: State, events: seq<Event>, e: Event)
    requires Inv(s)
    ensures Inv(Run(s, events))
    ensures var t := Run(s, events);
            Run(s, events + [e]) == if Enabled(t, e) then Apply(t, e) else t
    decreases |events|
  {
    hide Inv, Enabled, Apply;
    RunKeeps(s, events);
    if events == [] {
      assert events + [e] == [e];
      assert [e][1..] == [];
      if Enabled(s, e) {
        ApplyKeeps(s, e);
        NoMore(Apply(s, e));
      }
    } else {
      assert (events + [e])[1..] == events[1..] + [e];
      if Enabled(s, events[0]) {
        ApplyKeeps(s, events[0]);
        RunAppend(Apply(s, events[0]), events[1..], e);
      } else {
        RunAppend(s, events[1..], e);
      }
    }
  }

  /** What has begun has begun, and an event other than an edit leaves it the last. */
  lemma BeginsAppend(start: State, events: seq<Event>, e: Event, i: nat)
    requires Inv(start) && Begins(start, events, i)
    ensures Begins(start, events + [e], i)
    ensures NoEditAfter(events, i) && !e.Change? ==> NoEditAfter(events + [e], i)
  {
    hide Run, Inv, Enabled;
    assert (events + [e])[..i] == events[..i];
  }

  lemma BeganAppend(start: State, events: seq<Event>, e: Event, latest: bool, latest': bool)
    requires Inv(start) && Began(start, events, latest) && (latest' ==> latest && !e.Change?)
    ensures Began(start, events + [e], latest')
  {
    hide Inv, Begins;
    var i: nat :| Begins(start, events, i) && (latest ==> NoEditAfter(events, i));
    BeginsAppend(start, events, e, i);
  }

  lemma ReadAppend(start: State, events: seq<Event>, e: Event, project: Project, latest: bool, latest': bool)
    requires Inv(start) && ReadBy(start, events, project, latest) && (latest' ==> latest && !e.Change?)
    ensures ReadBy(start, events + [e], project, latest')
  {
    hide Inv, Begins;
    var i: nat, j: nat :| Begins(start, events, i) && (latest ==> NoEditAfter(events, i))
                && i < j < |events| && Reads(events[j], project);
    BeginsAppend(start, events, e, i);
    assert Reads((events + [e])[j], project);
  }

  /** A rebuild that has begun reads the project. */
  lemma ReadNow(start: State, events: seq<Event>, e: Event, project: Project, latest: bool)
    requires Inv(start) && Began(start, events, latest) && Reads(e, project)
    ensures ReadBy(start, events + [e], project, latest)
  {
    hide Inv, Begins;
    var i: nat :| Begins(start, events, i) && (latest ==> NoEditAfter(events, i));
    BeginsAppend(start, events, e, i);
    assert i < |events| by { BeginsBefore(start, events, i); }
    assert Reads((events + [e])[|events|], project);
  }

  lemma BeginsBefore(start: State, events: seq<Event>, i: nat)
    requires Inv(start) && Begins(start, events, i)
    ensures i < |events|
  {
  }

  lemma BeginsNow(start: State, events: seq<Event>, e: Event)
    requires Inv(start) && e.Timer?
    requires var s := Run(start, events); Enabled(s, e) && !s.rebuilding && !s.shuttingDown
    ensures Began(start, events + [e], true)
  {
    hide Run, Inv, Enabled;
    assert (events + [e])[..|events|] == events;
    assert Begins(start, events + [e], |events|) && NoEditAfter(events + [e], |events|);
  }

  /** Where a task and what it read come from: a rebuild that begins, a read, or the state before. */
  ghost predicate TaskFrom(s: State, e: Event, t: State, task: Id)
    requires task in t.tasks
  {
    var phase := t.tasks[task];
    if phase.Reading? then
      || (e.Timer? && !s.rebuilding && !s.shuttingDown)
      || (task in s.tasks && s.tasks[task].Reading?)
    else
      && task in s.tasks
      && if s.tasks[task].Reading? then Reads(e, phase.next) else s.tasks[task].next == phase.next
  }

  /** What an event does, as far as it matters where things come from. */
  ghost predicate Follows(s: State, e: Event, t: State) {
    && t.changes == s.changes + (if e.Change? then 1 else 0)
    && t.dirty == (if e.Change? then true else if e.Timer? && !s.rebuilding && !s.shuttingDown then false else s.dirty)
    && (forall task :: task in t.tasks ==> TaskFrom(s, e, t, task))
    && (t.succeeded && s.succeeded ==>
          t.current == s.current && !(e.Timer? && !s.rebuilding && !s.shuttingDown))
    && (t.succeeded && !s.succeeded ==>
          e.Ready? && e.task in s.tasks && s.tasks[e.task].Waiting? && t.current == s.tasks[e.task].next)
  }

  lemma EarlyFollows(s: State, e: Event)
    requires Inv(s) && Enabled(s, e) && !e.Started? && !e.Ready?
    ensures Follows(s, e, Apply(s, e))
  {
    hide Owned, Stopped;
    OnlyTasks(s);
  }

  lemma StartedFollows(s: State, task: Id, id: Id, ports: Option<(nat, Option<nat>)>)
    requires s.running in s.candidates && Enabled(s, Started(task, id, ports))
    ensures Follows(s, Started(task, id, ports), StartReturns(s, task, id, ports))
  {
  }

  lemma ReadyFollows(s: State, task: Id, ok: bool, throws: bool)
    requires s.running in s.candidates && Enabled(s, Ready(task, ok, throws)) && !s.succeeded
    requires s.tasks[task].candidate in s.candidates
    ensures Follows(s, Ready(task, ok, throws), ReadyReturns(s, task, ok, throws))
  {
    hide Stopped, HandOver;
  }

  lemma EventFollows(s: State, e: Event)
    requires Inv(s) && Enabled(s, e)
    ensures Follows(s, e, Apply(s, e))
  {
    hide Follows, Owned, StartReturns, ReadyReturns;
    match e
    case Started(task, id, ports) => StartedFollows(s, task, id, ports);
    case Ready(task, ok, throws) =>
      assert TaskOk(s, task);
      ReadyFollows(s, task, ok, throws);
    case _ => EarlyFollows(s, e);
  }

  lemma OnlyTasks(s: State)
    requires Inv(s)
    ensures forall a, b :: a in s.tasks && b in s.tasks ==> a == b
    ensures s.rebuilding <==> s.tasks != map[]
  {
  }

  lemma TaskTraced(start: State, events: seq<Event>, s: State, e: Event, t: State, task: Id)
    requires Inv(start) && Traced(start, events, s) && s == Run(start, events) && Inv(s) && Enabled(s, e)
    requires task in t.tasks && Follows(s, e, t)
    ensures if t.tasks[task].Reading? then Began(start, events + [e], !t.dirty)
            else ReadBy(start, events + [e], t.tasks[task].next, !t.dirty)
  {
    hide Run, Inv, Enabled, Began, ReadBy, Edits;
    OnlyTasks(s);
    assert TaskFrom(s, e, t, task);
    if t.tasks[task].Reading? {
      if e.Timer? && !s.rebuilding && !s.shuttingDown {
        BeginsNow(start, events, e);
      } else {
        BeganAppend(start, events, e, !s.dirty, !t.dirty);
      }
    } else if s.tasks[task].Reading? {
      ReadNow(start, events, e, t.tasks[task].next, !s.dirty);
    } else {
      ReadAppend(start, events, e, t.tasks[task].next, !s.dirty, !t.dirty);
    }
  }

  lemma StepTraced(start: State, events: seq<Event>, s: State, e: Event)
    requires Inv(start) && s == Run(start, events) && Inv(s) && Enabled(s, e) && Traced(start, events, s)
    ensures Traced(start, events + [e], Apply(s, e))
  {
    hide Run, Inv, Enabled, Apply, Began, ReadBy, Edits;
    var t, more := Apply(s, e), events + [e];
    EventFollows(s, e);
    EditsAppend(events, e);
    if e.Timer? && !s.rebuilding && !s.shuttingDown { BeginsNow(start, events, e); }
    else if Edits(more) > 0 && !t.dirty { BeganAppend(start, events, e, true, true); }
    forall task | task in t.tasks
      ensures if t.tasks[task].Reading? then Began(start, more, !t.dirty)
              else ReadBy(start, more, t.tasks[task].next, !t.dirty)
    {
      TaskTraced(start, events, s, e, t, task);
    }
    if t.succeeded { SuccessTraced(start, events, s, e, t); }
  }

  lemma SuccessTraced(start: State, events: seq<Event>, s: State, e: Event, t: State)
    requires Inv(start) && Traced(start, events, s) && t.succeeded && Follows(s, e, t)
    ensures ReadBy(start, events + [e], t.current, !t.dirty)
  {
    hide Run, Inv, Began, ReadBy, Edits;
    if !s.succeeded { assert !s.tasks[e.task].Reading?; }
    ReadAppend(start, events, e, t.current, !s.dirty, !t.dirty);
  }

  lemma {:induction false} RunTraced(start: State, events: seq<Event>)
    requires Inv(start) && !start.dirty && start.tasks == map[] && !start.succeeded
    ensures Traced(start, events, Run(start, events))
    decreases |events|
  {
    hide Inv, Enabled, Apply, Began, ReadBy;
    if events == [] {
      NoMore(start);
    } else {
      var n := |events| - 1;
      assert events == events[..n] + [events[n]];
      RunTraced(start, events[..n]);
      RunAppend(start, events[..n], events[n]);
      var s := Run(start, events[..n]);
      if Enabled(s, events[n]) {
        StepTraced(start, events[..n], s, events[n]);
      } else {
        SkipTraced(start, events[..n], s, events[n]);
      }
    }
  }

  lemma SkipTraced(start: State, events: seq<Event>, s: State, e: Event)
    requires Inv(start) && Traced(start, events, s) && !Enabled(s, e)
    ensures Traced(start, events + [e], s)
  {
    hide Run, Inv, Began, ReadBy, Edits;
    EditsAppend(events, e);
    if Edits(events) > 0 && !s.dirty { BeganAppend(start, events, e, true, true); }
    forall task | task in s.tasks
      ensures if s.tasks[task].Reading? then Began(start, events + [e], !s.dirty)
              else ReadBy(start, events + [e], s.tasks[task].next, !s.dirty)
    {
      if s.tasks[task].Reading? { BeganAppend(start, events, e, !s.dirty, !s.dirty); }
      else { ReadAppend(start, events, e, s.tasks[task].next, !s.dirty, !s.dirty); }
    }
    if s.succeeded { ReadAppend(start, events, e, s.current, !s.dirty, !s.dirty); }
  }

  // ---- whole sessions ----

  ghost function Start(project: Project, id: Id, port: nat, transferPort: Option<nat>): (s: State)
    ensures Inv(s)
  {
    BootedInv(project, id, port, transferPort);
    Booted(project, id, port, transferPort)
  }

  /** Every edit counts: as long as no rebuild has begun after the last one, the timer is armed or a rebuild is in
      flight, after which it is armed again. */
  lemma NoLostEdit(project: Project, id: Id, port: nat, transferPort: Option<nat>, events: seq<Event>)
    ensures var start, t := Start(project, id, port, transferPort), Session(project, id, port, transferPort, events);
            && t.changes == Edits(events)
            && (Edits(events) > 0 && !Began(start, events, true) ==>
                  t.dirty && (t.shuttingDown || t.armed || exists task :: task in t.tasks))
  {
    SessionKeeps(project, id, port, transferPort, events);
    RunTraced(Start(project, id, port, transferPort), events);
    var t := Session(project, id, port, transferPort, events);
    if t.tasks != map[] { var task :| task in t.tasks; }
  }

  /** At rest, a rebuild began after the last edit of the session; and if it succeeded, what it read is what the stable
      port serves. */
  lemma AtRestServesLatest(project: Project, id: Id, port: nat, transferPort: Option<nat>, events: seq<Event>)
    ensures var start, t := Start(project, id, port, transferPort), Session(project, id, port, transferPort, events);
            AtRest(t) && !t.shuttingDown ==>
              && (Edits(events) > 0 ==> Began(start, events, true))
              && (t.succeeded ==> ReadBy(start, events, t.candidates[t.running].project, true) && ServesLatest(t))
  {
    hide Began, ReadBy, Run, Owned;
    SessionKeeps(project, id, port, transferPort, events);
    RunTraced(Start(project, id, port, transferPort), events);
    var t := Session(project, id, port, transferPort, events);
    if AtRest(t) && !t.shuttingDown && t.succeeded { RestServes(t); }
  }
}
