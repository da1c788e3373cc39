/** Fetching bytes that must hash to a pin, from copies on disk and then from an ordered list of sources. */
module FetchPinned {
  import opened Options

  type Bytes = seq<nat>
  type Hash = string

  /** A file that may be there: what reading it gives. */
  datatype Copy = Absent | Unreadable | Content(bytes: Bytes)

  /** What a source answers: nothing, or a status and, if it could be read, a body. */
  datatype Reply = NetworkError | BrokenBody(status: nat) | Http(status: nat, body: Bytes)

  datatype Verdict = Success | Retry | Permanent

  datatype Fetched = Returned(bytes: Bytes) | Exhausted(failures: nat) | DiskError

  /** A call: the source, and the attempt at it. */
  datatype Call = Call(source: nat, attempt: nat)

  /** The digest and the pin, whether there is a cache and a stale copy in it can be removed, what every call is
      answered, and whether the copy of its bytes can be kept. */
  datatype World = World(
    sha: Bytes -> Hash, pin: Hash, keeps: bool, removes: bool, reply: Call -> Reply, saves: Call -> bool)

  predicate Pinned(w: World, bytes: Bytes) { w.sha(bytes) == w.pin }

  /** The call was answered with the right bytes. */
  predicate Matches(w: World, c: Call) {
    w.reply(c).Http? && 200 <= w.reply(c).status < 300 && Pinned(w, w.reply(c).body)
  }

  /** What a call comes to. A failed write of the copy is a failed call, whatever the bytes. */
  function Judge(w: World, c: Call): Verdict {
    match w.reply(c)
    case NetworkError => Retry
    case BrokenBody(status) => if 200 <= status < 300 || status >= 500 then Retry else Permanent
    case Http(status, body) =>
      if status >= 500 then Retry
      else if !(200 <= status < 300) || !Pinned(w, body) then Permanent
      else if w.keeps && !w.saves(c) then Retry
      else Success
  }

  lemma SuccessMatches(w: World, c: Call)
    ensures Judge(w, c) == Success <==> Matches(w, c) && (w.keeps ==> w.saves(c))
    ensures Matches(w, c) ==> w.reply(c).Http? && Pinned(w, w.reply(c).body) && Judge(w, c) != Permanent
  {
  }

  function AtLeastOne(n: int): nat { if n < 1 then 1 else n }

  // ---- the schedule ----

  /** The call a source comes to after retries only. */
  ghost predicate Scheduled(w: World, sources: nat, attempts: int, c: Call) {
    && c.source < sources && c.attempt < AtLeastOne(attempts)
    && forall a: nat :: a < c.attempt ==> Judge(w, Call(c.source, a)) == Retry
  }

  predicate Before(c: Call, d: Call) { c.source < d.source || (c.source == d.source && c.attempt < d.attempt) }

  /** Every scheduled call up to the first that succeeds, in order, and no other. */
  ghost predicate FollowsSchedule(w: World, sources: nat, attempts: int, calls: seq<Call>) {
    && (forall i, j :: 0 <= i < j < |calls| ==> Before(calls[i], calls[j]))
    && (forall i :: 0 <= i < |calls| ==> Scheduled(w, sources, attempts, calls[i]))
    && (forall i :: 0 <= i < |calls| - 1 ==> Judge(w, calls[i]) != Success)
    && (forall c :: Scheduled(w, sources, attempts, c) ==>
          c in calls || (calls != [] && Judge(w, calls[|calls| - 1]) == Success && Before(calls[|calls| - 1], c)))
  }

  /** The last call is the one that gave the bytes. */
  predicate GivenBy(w: World, calls: seq<Call>, bytes: Bytes) {
    calls != [] && Judge(w, calls[|calls| - 1]) == Success && w.reply(calls[|calls| - 1]).body == bytes
  }

  function Power2(k: nat): nat { if k == 0 then 1 else 2 * Power2(k - 1) }

  /** What is waited before a call. */
  function Backoff(backoffMs: nat, c: Call): nat { if c.attempt == 0 then 0 else backoffMs * Power2(c.attempt - 1) }

  // ---- how far the schedule has been followed ----

  /** The calls are the scheduled ones before `next`, in order, and none succeeded. */
  ghost predicate UpTo(w: World, sources: nat, attempts: int, calls: seq<Call>, next: Call) {
    && (forall i, j :: 0 <= i < j < |calls| ==> Before(calls[i], calls[j]))
    && (forall i :: 0 <= i < |calls| ==>
          Before(calls[i], next) && Scheduled(w, sources, attempts, calls[i]) && Judge(w, calls[i]) != Success)
    && (forall c :: Scheduled(w, sources, attempts, c) && Before(c, next) ==> c in calls)
  }

  lemma NextAttempt(w: World, sources: nat, attempts: int, calls: seq<Call>, c: Call)
    requires UpTo(w, sources, attempts, calls, c) && Scheduled(w, sources, attempts, c) && Judge(w, c) != Success
    ensures UpTo(w, sources, attempts, calls + [c], Call(c.source, c.attempt + 1))
  {
    hide Scheduled, Judge;
    var more := calls + [c];
    forall d | Scheduled(w, sources, attempts, d) && Before(d, Call(c.source, c.attempt + 1)) ensures d in more {
      if d == c { assert more[|calls|] == c; } else { assert Before(d, c); }
    }
  }

  /** A source is left after its last attempt, or after an answer that asking again will not change. */
  lemma NextSource(w: World, sources: nat, attempts: int, calls: seq<Call>, c: Call)
    requires UpTo(w, sources, attempts, calls, c)
    requires c.attempt == AtLeastOne(attempts) || (c.attempt > 0 && Judge(w, Call(c.source, c.attempt - 1)) != Retry)
    ensures UpTo(w, sources, attempts, calls, Call(c.source + 1, 0))
  {
    hide Judge, Scheduled;
    forall d | Scheduled(w, sources, attempts, d) && Before(d, Call(c.source + 1, 0)) ensures d in calls {
      NotPast(w, sources, attempts, c, d);
    }
  }

  lemma NotPast(w: World, sources: nat, attempts: int, c: Call, d: Call)
    requires c.attempt == AtLeastOne(attempts) || (c.attempt > 0 && Judge(w, Call(c.source, c.attempt - 1)) != Retry)
    ensures Scheduled(w, sources, attempts, d) && d.source == c.source ==> d.attempt < c.attempt
  {
    if 0 < c.attempt {
      var a: nat := c.attempt - 1;
      assert Scheduled(w, sources, attempts, d) && a < d.attempt ==> Judge(w, Call(d.source, a)) == Retry;
    }
  }

  lemma EndsInSuccess(w: World, sources: nat, attempts: int, calls: seq<Call>, c: Call)
    requires UpTo(w, sources, attempts, calls, c) && Scheduled(w, sources, attempts, c) && Judge(w, c) == Success
    ensures FollowsSchedule(w, sources, attempts, calls + [c])
    ensures GivenBy(w, calls + [c], w.reply(c).body)
  {
    hide Scheduled, Judge;
    var more := calls + [c];
    SuccessMatches(w, c);
    forall d | Scheduled(w, sources, attempts, d) ensures d in more || Before(c, d) {
      if d == c { assert more[|calls|] == c; }
    }
  }

  lemma EndsInNone(w: World, sources: nat, attempts: int, calls: seq<Call>)
    requires UpTo(w, sources, attempts, calls, Call(sources, 0))
    ensures FollowsSchedule(w, sources, attempts, calls)
    ensures forall c :: Scheduled(w, sources, attempts, c) ==> Judge(w, c) != Success
  {
    hide Judge;
  }

  // ---- the fetch ----

  /** The wait before each call. */
  predicate Waited(backoffMs: nat, calls: seq<Call>, waits: seq<nat>) {
    |waits| == |calls| && forall i :: 0 <= i < |calls| ==> waits[i] == Backoff(backoffMs, calls[i])
  }

  /** What the copies on disk decide: the local one first, then the cached one. */
  function OnDisk(w: World, local: Copy, cached: Copy): Option<Fetched> {
    if local.Unreadable? then Some(DiskError)
    else if local.Content? && Pinned(w, local.bytes) then Some(Returned(local.bytes))
    else if cached.Unreadable? then Some(DiskError)
    else if cached.Content? && Pinned(w, cached.bytes) then Some(Returned(cached.bytes))
    else if cached.Content? && !w.removes then Some(DiskError)
    else None
  }

  /** All attempts at one source. */
  method Ask(w: World, source: nat, sources: nat, attempts: int, backoffMs: nat,
             callsBefore: seq<Call>, waitsBefore: seq<nat>)
    returns (answer: Option<Bytes>, calls: seq<Call>, waits: seq<nat>)
    requires source < sources && UpTo(w, sources, attempts, callsBefore, Call(source, 0))
    requires Waited(backoffMs, callsBefore, waitsBefore)
    ensures |calls| <= |callsBefore| + AtLeastOne(attempts) && Waited(backoffMs, calls, waits)
    ensures answer.None? ==> UpTo(w, sources, attempts, calls, Call(source + 1, 0))
    ensures answer.Some? ==> FollowsSchedule(w, sources, attempts, calls) && GivenBy(w, calls, answer.value)
  {
    hide UpTo, GivenBy, FollowsSchedule;
    answer, calls, waits := None, callsBefore, waitsBefore;
    var n := AtLeastOne(attempts);
    for attempt := 0 to n
      invariant |calls| == |callsBefore| + attempt && Waited(backoffMs, calls, waits)
      invariant UpTo(w, sources, attempts, calls, Call(source, attempt)) && answer == None
      invariant forall a: nat :: a < attempt ==> Judge(w, Call(source, a)) == Retry
    {
      var call := Call(source, attempt);
      assert Scheduled(w, sources, attempts, call);
      waits := waits + [if attempt > 0 then backoffMs * Power2(attempt - 1) else 0];
      var permanent := false;
      match w.reply(call) {
        case NetworkError =>
        case BrokenBody(status) =>
          permanent := status < 500 && !(200 <= status < 300);
        case Http(status, body) =>
          if status >= 500 {
          } else if !(200 <= status < 300) || w.sha(body) != w.pin {
            permanent := true;
          } else if !w.keeps || w.saves(call) {
            EndsInSuccess(w, sources, attempts, calls, call);
            return Some(body), calls + [call], waits;
          }
      }
      NextAttempt(w, sources, attempts, calls, call);
      calls := calls + [call];
      if permanent {
        NextSource(w, sources, attempts, calls, Call(source, attempt + 1));
        return;
      }
    }
    NextSource(w, sources, attempts, calls, Call(source, n));
  }

  method Fetch(w: World, local: Copy, cached: Copy, sources: nat, attempts: int, backoffMs: nat)
    returns (result: Fetched, calls: seq<Call>, waits: seq<nat>, kept: Copy)
    requires cached != Absent ==> w.keeps
    ensures result.Returned? ==> Pinned(w, result.bytes)
    ensures OnDisk(w, local, cached).Some? ==> result == OnDisk(w, local, cached).value && calls == [] && kept == cached
    ensures OnDisk(w, local, cached).None? ==>
              && FollowsSchedule(w, sources, attempts, calls)
              && (result == Exhausted(|calls|) || result.Returned?)
              && (result.Exhausted? <==> forall c :: Scheduled(w, sources, attempts, c) ==> Judge(w, c) != Success)
              && (result.Returned? ==> GivenBy(w, calls, result.bytes))
              && kept == if result.Returned? && w.keeps then Content(result.bytes) else Absent
    ensures |calls| <= sources * AtLeastOne(attempts) && Waited(backoffMs, calls, waits)
  {
    hide UpTo, FollowsSchedule, Scheduled, Judge;
    calls, waits, kept := [], [], cached;
    if local.Unreadable? { return DiskError, calls, waits, kept; }
    if local.Content? && Pinned(w, local.bytes) { return Returned(local.bytes), calls, waits, kept; }
    if cached.Unreadable? { return DiskError, calls, waits, kept; }
    if cached.Content? {
      if Pinned(w, cached.bytes) { return Returned(cached.bytes), calls, waits, kept; }
      if !w.removes { return DiskError, calls, waits, kept; }
      kept := Absent;
    }
    NothingAsked(w, sources, attempts);
    for source := 0 to sources
      invariant UpTo(w, sources, attempts, calls, Call(source, 0)) && Waited(backoffMs, calls, waits)
      invariant |calls| <= source * AtLeastOne(attempts)
    {
      var answer;
      answer, calls, waits := Ask(w, source, sources, attempts, backoffMs, calls, waits);
      AtMost(source, sources, AtLeastOne(attempts));
      if answer.Some? {
        var last := calls[|calls| - 1];
        SuccessMatches(w, last);
        GivenCall(w, sources, attempts, calls);
        if w.keeps { kept := Content(answer.value); }
        return Returned(answer.value), calls, waits, kept;
      }
    }
    EndsInNone(w, sources, attempts, calls);
    result := Exhausted(|calls|);
  }

  lemma NothingAsked(w: World, sources: nat, attempts: int)
    ensures UpTo(w, sources, attempts, [], Call(0, 0))
  {
  }

  lemma AtMost(source: nat, sources: nat, n: nat)
    requires source < sources
    ensures source * n + n == (source + 1) * n <= sources * n
  {
  }

  lemma GivenCall(w: World, sources: nat, attempts: int, calls: seq<Call>)
    requires FollowsSchedule(w, sources, attempts, calls) && calls != []
    ensures Scheduled(w, sources, attempts, calls[|calls| - 1])
  {
  }

  // ---- the schedule, told by the answers ----

  function Status(r: Reply): int { if r.NetworkError? then 0 else r.status }

  /** An answer that asking again may change: none, a 5xx, or a good one whose body broke off. */
  predicate Transient(r: Reply) {
    r.NetworkError? || Status(r) >= 500 || (r.BrokenBody? && 200 <= Status(r) <= 299)
  }

  /** An answer that asking again will not change: any other status, or other bytes. */
  predicate Refused(w: World, r: Reply) {
    && !r.NetworkError? && Status(r) < 500
    && (!(200 <= Status(r) <= 299) || (r.Http? && w.sha(r.body) != w.pin))
  }

  lemma AnswersJudged(w: World, c: Call)
    ensures Judge(w, c) == Retry <==> Transient(w.reply(c)) || (Matches(w, c) && w.keeps && !w.saves(c))
    ensures Judge(w, c) == Permanent <==> Refused(w, w.reply(c))
  {
  }

  /** A source is asked again, and at most `attempts` times, as long as every answer so far may change or was right and
      could not be kept; it is asked at least once. */
  lemma ScheduledExactly(w: World, sources: nat, attempts: int, c: Call)
    ensures Scheduled(w, sources, attempts, c) <==>
            && c.source < sources && (c.attempt == 0 || c.attempt < attempts)
            && forall a: nat :: a < c.attempt ==>
                 var earlier := Call(c.source, a);
                 Transient(w.reply(earlier)) || (Matches(w, earlier) && w.keeps && !w.saves(earlier))
  {
    hide Judge, Transient, Matches;
    forall a: nat
      ensures Judge(w, Call(c.source, a)) == Retry
              <==> var earlier := Call(c.source, a);
                   Transient(w.reply(earlier)) || (Matches(w, earlier) && w.keeps && !w.saves(earlier))
    {
      AnswersJudged(w, Call(c.source, a));
    }
  }

  /** A source that is only ever down is asked `attempts` times, one that refuses only once. */
  lemma DownOrRefusing(w: World, sources: nat, attempts: int, source: nat, attempt: nat)
    requires source < sources
    ensures (forall a: nat :: Transient(w.reply(Call(source, a)))) ==>
              (Scheduled(w, sources, attempts, Call(source, attempt)) <==> attempt == 0 || attempt < attempts)
    ensures Refused(w, w.reply(Call(source, 0))) ==>
              (Scheduled(w, sources, attempts, Call(source, attempt)) <==> attempt == 0)
  {
    ScheduledExactly(w, sources, attempts, Call(source, attempt));
    var first := Call(source, 0);
    AnswersJudged(w, first);
    if attempt > 0 && Refused(w, w.reply(first)) { assert Judge(w, Call(source, 0)) == Permanent; }
  }

  /** Nothing is waited before the first attempt at a source, the backoff before the second, and then twice as long each
      time. */
  lemma BackoffDoubles(backoffMs: nat, source: nat, attempt: nat)
    ensures Backoff(backoffMs, Call(source, 0)) == 0 && Backoff(backoffMs, Call(source, 1)) == backoffMs
    ensures Backoff(backoffMs, Call(source, attempt + 2)) == 2 * Backoff(backoffMs, Call(source, attempt + 1))
  {
    assert Power2(attempt + 1) == 2 * Power2(attempt);
    assert Power2(0) == 1;
  }

  /** A copy on disk is returned exactly when it has the pinned bytes, the local one before the cached one; the sources
      are asked exactly when neither has them and nothing on disk fails. */
  lemma DiskFirst(w: World, local: Copy, cached: Copy, bytes: Bytes)
    ensures OnDisk(w, local, cached) == Some(Returned(bytes)) <==>
            && w.sha(bytes) == w.pin
            && (|| local == Content(bytes)
                || (!local.Unreadable? && (local.Content? ==> w.sha(local.bytes) != w.pin) && cached == Content(bytes)))
    ensures OnDisk(w, local, cached) == None <==>
            && !local.Unreadable? && (local.Content? ==> w.sha(local.bytes) != w.pin)
            && !cached.Unreadable? && (cached.Content? ==> w.sha(cached.bytes) != w.pin && w.removes)
  {
  }

  // ---- when a source had the bytes ----

  /** No call of the schedule succeeds: what `Fetch` fails on. */
  ghost predicate NoneSucceeds(w: World, sources: nat, attempts: int) {
    forall c :: Scheduled(w, sources, attempts, c) ==> Judge(w, c) != Success
  }

  /** Some call of the schedule is given the pinned bytes. */
  ghost predicate SomeMatches(w: World, sources: nat, attempts: int) {
    exists c :: Scheduled(w, sources, attempts, c) && Matches(w, c)
  }

  ghost predicate SomeMatchKept(w: World, sources: nat, attempts: int) {
    exists c :: Scheduled(w, sources, attempts, c) && Matches(w, c) && (w.keeps ==> w.saves(c))
  }

  /** "It fails exactly when no source gives the bytes" holds if and only if, where some source does, some copy of what
      it gives can be kept. */
  lemma MatchReturned(w: World, sources: nat, attempts: int)
    ensures NoneSucceeds(w, sources, attempts) <==> !SomeMatchKept(w, sources, attempts)
    ensures (NoneSucceeds(w, sources, attempts) <==> !SomeMatches(w, sources, attempts))
            <==> (SomeMatches(w, sources, attempts) ==> SomeMatchKept(w, sources, attempts))
  {
    hide Judge, Matches, Scheduled;
    forall c ensures Judge(w, c) == Success <==> Matches(w, c) && (w.keeps ==> w.saves(c)) { SuccessMatches(w, c); }
  }

  /** So with a cache that either can be written or cannot: if and only if there is no cache, or it can be written, or
      no source gives the bytes. */
  lemma WritableDecides(w: World, sources: nat, attempts: int, writable: bool)
    requires forall c :: w.saves(c) == writable
    ensures (NoneSucceeds(w, sources, attempts) <==> !SomeMatches(w, sources, attempts))
            <==> ((w.keeps ==> writable) || !SomeMatches(w, sources, attempts))
  {
    MatchReturned(w, sources, attempts);
  }

  /** One source, one attempt, the pinned bytes, and a cache that cannot be written: the fetch fails. */
  method UnwritableCache() returns (w: World, result: Fetched, calls: seq<Call>)
    ensures Matches(w, Call(0, 0)) && w.keeps && !w.saves(Call(0, 0))
    ensures result == Exhausted(1) && calls == [Call(0, 0)]
  {
    w := World(bytes => "pin", "pin", true, true, c => Http(200, [7]), c => false);
    var waits, kept;
    result, calls, waits, kept := Fetch(w, Absent, Absent, 1, 1, 500);
    NothingKept(w, 1, 1);
    assert Scheduled(w, 1, 1, Call(0, 0));
    assert Call(0, 0) in calls;
    assert |calls| <= 1;
  }

  lemma NothingKept(w: World, sources: nat, attempts: int)
    requires w.keeps && forall c :: !w.saves(c)
    ensures NoneSucceeds(w, sources, attempts)
  {
    forall c ensures Judge(w, c) != Success { SuccessMatches(w, c); }
  }
}
