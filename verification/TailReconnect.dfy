/** The live tail's reconnecting: when it waits, how long, and when it gives up. */
module TailReconnect {
  import opened Options

  datatype Frame<E> =
    | Ready
    | Event(event: E)
    | Dropped(count: int, bytes: Option<int>, reason: string)
    | Closed(reason: string)

  /** A body: the frames read from it, and whether reading ended in an error. */
  datatype Stream<E> = Stream(frames: seq<Frame<E>>, broken: bool)

  datatype Answer<E> = Unreachable | Answer(status: nat, body: Option<Stream<E>>)

  /** When, if at all, the caller's signal aborts: in the attempt, or in the wait that follows it. */
  datatype Abort = Never | During | Asleep

  datatype Attempt<E> = Attempt(answer: Answer<E>, abort: Abort)

  datatype Notice = TailingLive | DroppedSome(count: int, bytes: Option<int>, reason: string) | Retrying

  datatype Settings<!E> = Settings(
    pretty: bool, retryMs: nat, maxFailures: int, json: E -> string, format: E -> seq<string>)

  /** How a run ends; `Running` is a run that has not ended with its last attempt so far. */
  datatype End = Running | Stopped | Rejected(status: nat) | LostConnection(times: nat)

  const CAP := 8000

  // ---- one attempt ----

  predicate Streaming<E>(a: Attempt<E>) {
    a.answer.Answer? && 200 <= a.answer.status < 300 && a.answer.body.Some?
  }

  function FramesOf<E>(a: Attempt<E>): seq<Frame<E>> { if Streaming(a) then a.answer.body.value.frames else [] }

  /** A refusal that asking again will not change. */
  predicate Final<E>(a: Attempt<E>) {
    && a.answer.Answer? && !Streaming(a)
    && 400 <= a.answer.status < 500 && a.answer.status != 408 && a.answer.status != 429
  }

  predicate Fails<E>(a: Attempt<E>) {
    !Final(a) && (Streaming(a) ==> a.answer.body.value.broken || FramesOf(a) == [])
  }

  /** Which answers end the run, and which are failures. */
  lemma AnswersDecide<E>(status: nat, stream: Stream<E>, abort: Abort)
    ensures var none: Attempt<E> := Attempt(Unreachable, abort); Fails(none) && !Final(none)
    ensures var bare: Attempt<E> := Attempt(Answer(status, None), abort);
            && (Final(bare) <==> 400 <= status <= 499 && status != 408 && status != 429)
            && (Fails(bare) <==> !Final(bare))
    ensures var full: Attempt<E> := Attempt(Answer(status, Some(stream)), abort);
            && (Final(full) <==> 400 <= status <= 499 && status != 408 && status != 429)
            && (200 <= status <= 299 ==> (Fails(full) <==> stream.broken || stream.frames == []))
            && (!(200 <= status <= 299) ==> (Fails(full) <==> !Final(full)) && FramesOf(full) == [])
            && (200 <= status <= 299 ==> FramesOf(full) == stream.frames)
  {
  }

  // ---- what a run is held to ----

  function AtLeastOne(n: int): nat { if n < 1 then 1 else n }

  /** The `n` attempts that end with the `i`-th failed, and none after the first of them brought a frame. */
  predicate FailedInARow<E>(attempts: seq<Attempt<E>>, i: nat, n: nat) {
    && i < |attempts| && n <= i + 1
    && forall j :: i + 1 - n <= j <= i ==> Fails(attempts[j]) && (j > i + 1 - n ==> FramesOf(attempts[j]) == [])
  }

  predicate GivesUp<E>(attempts: seq<Attempt<E>>, i: nat, maxFailures: int) {
    FailedInARow(attempts, i, AtLeastOne(maxFailures))
  }

  predicate GoesOn<E>(attempts: seq<Attempt<E>>, i: nat, maxFailures: int) {
    && i < |attempts|
    && attempts[i].abort != During && !Final(attempts[i])
    && (Fails(attempts[i]) ==> attempts[i].abort != Asleep && !GivesUp(attempts, i, maxFailures))
  }

  /** The run that ends so after `made` attempts. An abort in the attempt comes before everything the attempt did. */
  predicate Outcome<E>(attempts: seq<Attempt<E>>, aborted: bool, maxFailures: int, end: End, made: nat) {
    && made <= |attempts|
    && (forall i :: 0 <= i < made - 1 ==> GoesOn(attempts, i, maxFailures))
    && (made > 0 ==> !aborted)
    && match end
       case Running => !aborted && made == |attempts| && (made > 0 ==> GoesOn(attempts, made - 1, maxFailures))
       case Stopped =>
         if made == 0 then aborted
         else
           || attempts[made - 1].abort == During
           || (&& Fails(attempts[made - 1]) && attempts[made - 1].abort == Asleep
               && !GivesUp(attempts, made - 1, maxFailures))
       case Rejected(status) =>
         && made > 0 && attempts[made - 1].abort != During
         && Final(attempts[made - 1]) && attempts[made - 1].answer.status == status
       case LostConnection(times) =>
         && made > 0 && attempts[made - 1].abort != During
         && GivesUp(attempts, made - 1, maxFailures) && times == AtLeastOne(maxFailures)
  }

  /** Attempts leave no choice of how and when the run ends. */
  lemma OneOutcome<E>(attempts: seq<Attempt<E>>, aborted: bool, maxFailures: int,
                      end: End, made: nat, end': End, made': nat)
    requires Outcome(attempts, aborted, maxFailures, end, made)
    requires Outcome(attempts, aborted, maxFailures, end', made')
    ensures end == end' && made == made'
  {
    assert 0 < made < made' ==> GoesOn(attempts, made - 1, maxFailures);
    assert 0 < made' < made ==> GoesOn(attempts, made' - 1, maxFailures);
    GivesUpFails(attempts, made - 1, maxFailures);
    GivesUpFails(attempts, made' - 1, maxFailures);
  }

  lemma GivesUpFails<E>(attempts: seq<Attempt<E>>, i: int, maxFailures: int)
    ensures 0 <= i < |attempts| && GivesUp(attempts, i, maxFailures) ==> Fails(attempts[i]) && !Final(attempts[i])
  {
  }

  /** Never aborted and never finally refused, a run throws exactly when so many attempts failed since the last
      frame. */
  lemma ThrowsExactly<E>(attempts: seq<Attempt<E>>, maxFailures: int, end: End, made: nat)
    requires Outcome(attempts, false, maxFailures, end, made)
    requires forall i :: 0 <= i < |attempts| ==> attempts[i].abort == Never && !Final(attempts[i])
    ensures end.LostConnection? <==> exists i: nat :: i < |attempts| && GivesUp(attempts, i, maxFailures)
    ensures end.LostConnection? || end.Running?
    ensures end.LostConnection? ==> forall i: nat :: i < made - 1 ==> !GivesUp(attempts, i, maxFailures)
  {
    if end.LostConnection? {
      var i := made - 1;
      assert i < |attempts| && GivesUp(attempts, i, maxFailures);
    }
    forall i: nat | i < |attempts| && GoesOn(attempts, i, maxFailures) ensures !GivesUp(attempts, i, maxFailures) {
      GivesUpFails(attempts, i, maxFailures);
    }
  }

  // ---- failures since the last frame, and the waits ----

  function Streak<E>(attempts: seq<Attempt<E>>): nat {
    if attempts == [] then 0
    else
      var last := attempts[|attempts| - 1];
      if !Fails(last) then 0 else if FramesOf(last) != [] then 1 else 1 + Streak(attempts[..|attempts| - 1])
  }

  /** The longest row of failures at the end. */
  lemma {:induction false} StreakIsLongest<E>(attempts: seq<Attempt<E>>, i: nat, n: nat)
    requires i < |attempts| && n > 0
    ensures FailedInARow(attempts, i, n) <==> n <= Streak(attempts[..i + 1])
    decreases i
  {
    assert attempts[..i + 1][..i] == attempts[..i];
    if Fails(attempts[i]) && FramesOf(attempts[i]) == [] && n > 1 {
      if i == 0 {
        assert Streak(attempts[..0]) == 0;
      } else {
        StreakIsLongest(attempts, i - 1, n - 1);
        assert FailedInARow(attempts, i, n) ==> FailedInARow(attempts, i - 1, n - 1);
      }
    }
  }

  function Power2(k: nat): (p: nat)
    ensures p > 0
  {
    if k == 0 then 1 else 2 * Power2(k - 1)
  }

  /** What the k-th failure in a row waits, counting from 0. */
  function Wait(retryMs: nat, k: nat): nat {
    var grown := retryMs * Power2(k);
    if k == 0 || grown < CAP then grown else CAP
  }

  /** The waits of attempts none of which ended the run. */
  function Waits<E>(retryMs: nat, attempts: seq<Attempt<E>>): seq<nat> {
    if attempts == [] then []
    else
      Waits(retryMs, attempts[..|attempts| - 1]) +
      if Fails(attempts[|attempts| - 1]) then [Wait(retryMs, Streak(attempts) - 1)] else []
  }

  lemma WaitDoubles(retryMs: nat, k: nat)
    ensures Wait(retryMs, k + 1) == if Wait(retryMs, k) * 2 < CAP then Wait(retryMs, k) * 2 else CAP
  {
    assert retryMs * Power2(k + 1) == 2 * (retryMs * Power2(k));
  }

  /** The first wait is not capped, so the rule "double up to the cap" holds of every wait only from a start under
      the cap. */
  lemma CappedWait(retryMs: nat)
    ensures retryMs <= CAP <==>
            forall k: nat :: Wait(retryMs, k) == if retryMs * Power2(k) < CAP then retryMs * Power2(k) else CAP
  {
    assert retryMs * Power2(0) == retryMs;
    if retryMs > CAP { assert Wait(retryMs, 0) == retryMs; }
  }

  // ---- what a run prints ----

  function AllFrames<E>(attempts: seq<Attempt<E>>): seq<Frame<E>> {
    if attempts == [] then [] else AllFrames(attempts[..|attempts| - 1]) + FramesOf(attempts[|attempts| - 1])
  }

  function Events<E>(frames: seq<Frame<E>>): seq<E> {
    if frames == [] then []
    else
      Events(frames[..|frames| - 1]) + if frames[|frames| - 1].Event? then [frames[|frames| - 1].event] else []
  }

  function Lines<E>(settings: Settings<E>, events: seq<E>): seq<string> {
    if events == [] then []
    else
      var last := events[|events| - 1];
      Lines(settings, events[..|events| - 1]) +
      if settings.pretty then Ended(settings.format(last)) else [settings.json(last) + "\n"]
  }

  function Ended(lines: seq<string>): seq<string> { seq(|lines|, i requires 0 <= i < |lines| => lines[i] + "\n") }

  function Drops<E>(frames: seq<Frame<E>>): seq<Notice> {
    if frames == [] then []
    else
      var last := frames[|frames| - 1];
      Drops(frames[..|frames| - 1]) + if last.Dropped? then [DroppedSome(last.count, last.bytes, last.reason)] else []
  }

  /** In the JSON form a line of output is an event, and an event is a line of output. */
  lemma {:induction false} JsonLines<E>(settings: Settings<E>, events: seq<E>)
    requires !settings.pretty
    ensures |Lines(settings, events)| == |events|
    ensures forall i :: 0 <= i < |events| ==> Lines(settings, events)[i] == settings.json(events[i]) + "\n"
  {
    if events != [] { JsonLines(settings, events[..|events| - 1]); }
  }

  /** In pretty form an event is its formatted lines, each ended. */
  lemma PrettyLines<E>(settings: Settings<E>, events: seq<E>, event: E)
    requires settings.pretty
    ensures Lines(settings, events + [event])
            == Lines(settings, events)
               + seq(|settings.format(event)|,
                     i requires 0 <= i < |settings.format(event)| => settings.format(event)[i] + "\n")
  {
    assert (events + [event])[..|events|] == events;
  }

  lemma OneMoreFrame<E>(settings: Settings<E>, frames: seq<Frame<E>>, frame: Frame<E>)
    ensures Drops(frames + [frame]) ==
            Drops(frames) + if frame.Dropped? then [DroppedSome(frame.count, frame.bytes, frame.reason)] else []
    ensures !frame.Event? ==> Lines(settings, Events(frames + [frame])) == Lines(settings, Events(frames))
    ensures frame.Event? && settings.pretty ==>
              Lines(settings, Events(frames + [frame]))
              == Lines(settings, Events(frames)) + Ended(settings.format(frame.event))
    ensures frame.Event? && !settings.pretty ==>
              Lines(settings, Events(frames + [frame]))
              == Lines(settings, Events(frames)) + [settings.json(frame.event) + "\n"]
  {
    assert (frames + [frame])[..|frames|] == frames;
    var events := Events(frames);
    if frame.Event? {
      assert (events + [frame.event])[..|events|] == events;
    } else {
      assert events + [] == events;
    }
  }

  // ---- the run ----

  /** What an attempt leaves behind: nothing wrong, a final refusal, or a failure. */
  datatype Thrown = Nothing | Refusal(status: nat) | Failure

  method PrintLines(stdout: seq<string>, lines: seq<string>) returns (printed: seq<string>)
    ensures printed == stdout + Ended(lines)
  {
    printed := stdout;
    for i := 0 to |lines|
      invariant printed == stdout + Ended(lines)[..i]
    {
      printed := printed + [lines[i] + "\n"];
    }
  }

  /** In pretty form: that the tail is live, once, and a line for every retry. */
  function Said(announced: bool, retries: nat): multiset<Notice> {
    multiset{}[TailingLive := if announced then 1 else 0][Retrying := retries]
  }

  /** What has been printed so far is what these frames make a run print. */
  ghost predicate Printed<E>(settings: Settings<E>, frames: seq<Frame<E>>, announced: bool, retries: nat,
                             stdout: seq<string>, stderr: seq<Notice>)
  {
    && stdout == Lines(settings, Events(frames))
    && (announced <==> Ready in frames)
    && (!settings.pretty ==> stderr == Drops(frames))
    && (settings.pretty ==> multiset(stderr) == multiset(Drops(frames)) + Said(announced, retries))
  }

  lemma AfterReady<E>(settings: Settings<E>, seen: seq<Frame<E>>, announced: bool, retries: nat,
                      stdout: seq<string>, stderr: seq<Notice>)
    requires Printed(settings, seen, announced, retries, stdout, stderr)
    ensures settings.pretty && !announced ==>
              Printed(settings, seen + [Ready], true, retries, stdout, stderr + [TailingLive])
    ensures !settings.pretty || announced ==> Printed(settings, seen + [Ready], true, retries, stdout, stderr)
  {
    hide Lines, Drops, Events;
    OneMoreFrame(settings, seen, Ready);
    assert (seen + [Ready])[|seen|] == Ready;
    assert Said(true, retries) == Said(false, retries) + multiset{TailingLive};
    assert Drops(seen) + [] == Drops(seen);
  }

  lemma AfterEvent<E>(settings: Settings<E>, seen: seq<Frame<E>>, event: E, announced: bool, retries: nat,
                      stdout: seq<string>, stderr: seq<Notice>)
    requires Printed(settings, seen, announced, retries, stdout, stderr)
    ensures settings.pretty ==>
              Printed(settings, seen + [Event(event)], announced, retries,
                      stdout + Ended(settings.format(event)), stderr)
    ensures !settings.pretty ==>
              Printed(settings, seen + [Event(event)], announced, retries,
                      stdout + [settings.json(event) + "\n"], stderr)
  {
    hide Lines, Drops, Events, Ended;
    OneMoreFrame(settings, seen, Event(event));
    StillReady(seen, Event(event));
    assert Drops(seen) + [] == Drops(seen);
  }

  lemma AfterDropped<E>(settings: Settings<E>, seen: seq<Frame<E>>, count: int, bytes: Option<int>, reason: string,
                        announced: bool, retries: nat, stdout: seq<string>, stderr: seq<Notice>)
    requires Printed(settings, seen, announced, retries, stdout, stderr)
    ensures Printed(settings, seen + [Dropped(count, bytes, reason)], announced, retries,
                    stdout, stderr + [DroppedSome(count, bytes, reason)])
  {
    hide Lines, Drops, Events;
    OneMoreFrame(settings, seen, Dropped(count, bytes, reason));
    StillReady(seen, Dropped(count, bytes, reason));
  }

  lemma AfterClosed<E>(settings: Settings<E>, seen: seq<Frame<E>>, reason: string, announced: bool, retries: nat,
                       stdout: seq<string>, stderr: seq<Notice>)
    requires Printed(settings, seen, announced, retries, stdout, stderr)
    ensures Printed(settings, seen + [Closed(reason)], announced, retries, stdout, stderr)
  {
    hide Lines, Drops, Events;
    OneMoreFrame(settings, seen, Closed(reason));
    StillReady(seen, Closed(reason));
    assert Drops(seen) + [] == Drops(seen);
  }

  lemma AfterRetry<E>(settings: Settings<E>, seen: seq<Frame<E>>, announced: bool, retries: nat,
                      stdout: seq<string>, stderr: seq<Notice>)
    requires Printed(settings, seen, announced, retries, stdout, stderr)
    ensures settings.pretty ==> Printed(settings, seen, announced, retries + 1, stdout, stderr + [Retrying])
    ensures !settings.pretty ==> Printed(settings, seen, announced, retries + 1, stdout, stderr)
  {
    hide Lines, Drops, Events;
    assert Said(announced, retries + 1) == Said(announced, retries) + multiset{Retrying};
  }

  lemma StillReady<E>(seen: seq<Frame<E>>, frame: Frame<E>)
    requires !frame.Ready?
    ensures Ready in seen + [frame] <==> Ready in seen
  {
    assert forall k :: 0 <= k < |seen| ==> (seen + [frame])[k] == seen[k];
  }

  /** Reads a body to its end. Every frame clears the failures; a body without one is a failure itself. */
  method Follow<E>(settings: Settings<E>, stream: Stream<E>, delayBefore: nat, failuresBefore: nat,
                   announcedBefore: bool, outBefore: seq<string>, errBefore: seq<Notice>, ghost before: seq<Frame<E>>,
                   ghost retries: nat)
    returns (thrown: Thrown, delay: nat, failures: nat, announced: bool, stdout: seq<string>, stderr: seq<Notice>)
    requires Printed(settings, before, announcedBefore, retries, outBefore, errBefore)
    ensures Printed(settings, before + stream.frames, announced, retries, stdout, stderr)
    ensures thrown == if stream.broken || stream.frames == [] then Failure else Nothing
    ensures if stream.frames == [] then delay == delayBefore && failures == failuresBefore
            else delay == settings.retryMs && failures == 0
  {
    hide *;
    delay, failures, announced, stdout, stderr := delayBefore, failuresBefore, announcedBefore, outBefore, errBefore;
    var sawFrame := false;
    ghost var seen := before;
    for i := 0 to |stream.frames|
      invariant seen == before + stream.frames[..i] && Printed(settings, seen, announced, retries, stdout, stderr)
      invariant sawFrame <==> i > 0
      invariant i == 0 ==> delay == delayBefore && failures == failuresBefore
      invariant i > 0 ==> delay == settings.retryMs && failures == 0
    {
      var frame := stream.frames[i];
      sawFrame := true;
      failures := 0;
      delay := settings.retryMs;
      match frame {
        case Ready =>
          AfterReady(settings, seen, announced, retries, stdout, stderr);
          if settings.pretty && !announced { stderr := stderr + [TailingLive]; }
          announced := true;
        case Event(event) =>
          AfterEvent(settings, seen, event, announced, retries, stdout, stderr);
          if settings.pretty {
            stdout := PrintLines(stdout, settings.format(event));
          } else {
            stdout := stdout + [settings.json(event) + "\n"];
          }
        case Dropped(count, bytes, reason) =>
          AfterDropped(settings, seen, count, bytes, reason, announced, retries, stdout, stderr);
          stderr := stderr + [DroppedSome(count, bytes, reason)];
        case Closed(reason) =>
          AfterClosed(settings, seen, reason, announced, retries, stdout, stderr);
      }
      seen := seen + [frame];
      assert stream.frames[..i + 1] == stream.frames[..i] + [frame];
    }
    assert stream.frames[..|stream.frames|] == stream.frames;
    thrown := if stream.broken || !sawFrame then Failure else Nothing;
  }

  /** One attempt, up to what it throws. */
  method Try<E>(settings: Settings<E>, attempt: Attempt<E>, delayBefore: nat, failuresBefore: nat,
                announcedBefore: bool, outBefore: seq<string>, errBefore: seq<Notice>, ghost before: seq<Frame<E>>,
                ghost retries: nat)
    returns (thrown: Thrown, delay: nat, failures: nat, announced: bool, stdout: seq<string>, stderr: seq<Notice>)
    requires Printed(settings, before, announcedBefore, retries, outBefore, errBefore)
    ensures Printed(settings, before + FramesOf(attempt), announced, retries, stdout, stderr)
    ensures thrown.Refusal? <==> Final(attempt)
    ensures thrown.Failure? <==> Fails(attempt)
    ensures thrown.Nothing? ==> FramesOf(attempt) != []
    ensures thrown.Refusal? ==> thrown.status == attempt.answer.status
    ensures if FramesOf(attempt) == [] then delay == delayBefore && failures == failuresBefore
            else delay == settings.retryMs && failures == 0
  {
    thrown, delay, failures, announced, stdout, stderr :=
      Failure, delayBefore, failuresBefore, announcedBefore, outBefore, errBefore;
    assert before + [] == before;
    if attempt.answer.Answer? {
      var status := attempt.answer.status;
      if !(200 <= status < 300) || attempt.answer.body.None? {
        thrown := if status >= 400 && status < 500 && status != 408 && status != 429 then Refusal(status) else Failure;
      } else {
        thrown, delay, failures, announced, stdout, stderr :=
          Follow(settings, attempt.answer.body.value, delay, failures, announced, stdout, stderr, before, retries);
      }
    }
  }

  lemma OneMoreAttempt<E>(attempts: seq<Attempt<E>>, i: nat, retryMs: nat)
    requires i < |attempts|
    ensures AllFrames(attempts[..i + 1]) == AllFrames(attempts[..i]) + FramesOf(attempts[i])
    ensures Streak(attempts[..i + 1]) ==
            if !Fails(attempts[i]) then 0 else if FramesOf(attempts[i]) != [] then 1 else 1 + Streak(attempts[..i])
    ensures !Fails(attempts[i]) ==> Waits(retryMs, attempts[..i + 1]) == Waits(retryMs, attempts[..i])
    ensures Fails(attempts[i]) ==>
              Waits(retryMs, attempts[..i + 1]) ==
              Waits(retryMs, attempts[..i]) + [Wait(retryMs, Streak(attempts[..i + 1]) - 1)]
  {
    hide Fails, FramesOf, Wait;
    var made := attempts[..i + 1];
    assert made[..i] == attempts[..i];
    assert made[|made| - 1] == attempts[i];
  }

  lemma GivesUpAt<E>(attempts: seq<Attempt<E>>, i: nat, maxFailures: int)
    requires i < |attempts|
    ensures GivesUp(attempts, i, maxFailures) <==> AtLeastOne(maxFailures) <= Streak(attempts[..i + 1])
  {
    StreakIsLongest(attempts, i, AtLeastOne(maxFailures));
  }

  lemma NothingYet<E>(settings: Settings<E>, attempts: seq<Attempt<E>>)
    ensures Printed(settings, AllFrames(attempts[..0]), false, 0, [], [])
    ensures Streak(attempts[..0]) == 0 && Waits(settings.retryMs, attempts[..0]) == []
    ensures Wait(settings.retryMs, 0) == settings.retryMs
  {
  }

  method RunTail<E>(settings: Settings<E>, attempts: seq<Attempt<E>>, abortedBefore: bool)
    returns (end: End, made: nat, stdout: seq<string>, stderr: seq<Notice>, waits: seq<nat>)
    ensures Outcome(attempts, abortedBefore, settings.maxFailures, end, made)
    ensures stdout == Lines(settings, Events(AllFrames(attempts[..made])))
    ensures !settings.pretty ==> stderr == Drops(AllFrames(attempts[..made]))
    ensures settings.pretty ==>
              multiset(stderr) == multiset(Drops(AllFrames(attempts[..made])))
                                  + Said(Ready in AllFrames(attempts[..made]), |waits|)
    ensures end.Running? ==> waits == Waits(settings.retryMs, attempts)
    ensures made > 0 && (end.Rejected? || end.LostConnection? || attempts[made - 1].abort == During) ==>
              waits == Waits(settings.retryMs, attempts[..made - 1])
    ensures made > 0 && end.Stopped? && attempts[made - 1].abort != During ==>
              waits == Waits(settings.retryMs, attempts[..made])
  {
    hide FailedInARow, GivesUp, Fails, Final, Streaming, FramesOf, Streak, Waits, Wait, Power2;
    hide AllFrames, Events, Lines, Drops;
    made, stdout, stderr, waits := 0, [], [], [];
    NothingYet(settings, attempts);
    var delay, failures, announced, aborted := settings.retryMs, 0, false, abortedBefore;
    while !aborted && made < |attempts|
      invariant made <= |attempts|
      invariant forall i :: 0 <= i < made ==> GoesOn(attempts, i, settings.maxFailures)
      invariant aborted == abortedBefore
      invariant made > 0 ==> !aborted
      invariant Printed(settings, AllFrames(attempts[..made]), announced, |waits|, stdout, stderr)
      invariant failures == Streak(attempts[..made]) < AtLeastOne(settings.maxFailures)
      invariant delay == Wait(settings.retryMs, failures)
      invariant waits == Waits(settings.retryMs, attempts[..made])
      decreases |attempts| - made
    {
      var attempt := attempts[made];
      OneMoreAttempt(attempts, made, settings.retryMs);
      GivesUpAt(attempts, made, settings.maxFailures);
      GivesUpFails(attempts, made, settings.maxFailures);
      var thrown;
      thrown, delay, failures, announced, stdout, stderr :=
        Try(settings, attempt, delay, failures, announced, stdout, stderr, AllFrames(attempts[..made]),
            |waits|);
      made := made + 1;
      // the catch block leaves the loop, or else its condition does
      if attempt.abort == During { return Stopped, made, stdout, stderr, waits; }
      if thrown.Refusal? { return Rejected(thrown.status), made, stdout, stderr, waits; }
      if thrown.Failure? {
        failures := failures + 1;
        if failures >= settings.maxFailures { return LostConnection(failures), made, stdout, stderr, waits; }
        AfterRetry(settings, AllFrames(attempts[..made]), announced, |waits|, stdout, stderr);
        if settings.pretty { stderr := stderr + [Retrying]; }
        waits := waits + [delay];
        WaitDoubles(settings.retryMs, failures - 1);
        if attempt.abort == Asleep { return Stopped, made, stdout, stderr, waits; }
        delay := if delay * 2 < CAP then delay * 2 else CAP;
      }
    }
    end := if aborted then Stopped else Running;
    assert attempts[..|attempts|] == attempts;
  }

  /** From 9 seconds, the first wait is longer than the cap, and the next one shorter than the first. */
  lemma LongFirstWait()
    ensures Wait(9000, 0) == 9000 && Wait(9000, 1) == CAP == 8000
  {
    assert Power2(0) == 1 && Power2(1) == 2;
  }
}
