/** The sliding-window limiter of login attempts (apps/api/src/devtest-http-controls.ts), which forgets what it no longer needs. */
module RateLimiter {

  /** The times after the start of a window. */
  function Recent(times: seq<int>, start: int): (r: seq<int>)
    ensures |r| <= |times|
  {
    if times == [] then []
    else Recent(times[..|times| - 1], start) + (if times[|times| - 1] > start then [times[|times| - 1]] else [])
  }

  datatype Verdict = Verdict(limited: bool, remaining: int)

  type Hits = map<string, seq<int>>

  function TimesOf(hits: Hits, key: string): seq<int> {
    if key in hits then hits[key] else []
  }

  /** The verdict when some attempts are recent. */
  function Judge(recent: nat, maxAttempts: int): Verdict {
    if recent >= maxAttempts then Verdict(true, 0) else Verdict(false, maxAttempts - (recent + 1))
  }

  class Limiter {
    const maxAttempts: int
    const windowMs: int
    var hits: Hits

    constructor (maxAttempts: int, windowMs: int)
      ensures this.maxAttempts == maxAttempts && this.windowMs == windowMs && hits == map[]
    {
      this.maxAttempts := maxAttempts;
      this.windowMs := windowMs;
      hits := map[];
    }

    /** `check`, at some time on the clock. */
    method Check(key: string, now: int) returns (v: Verdict)
      modifies this`hits
      ensures (hits, v) == Pruned(old(hits), key, now, maxAttempts, windowMs)
    {
      var windowStart := now - windowMs;
      var recent := Recent(TimesOf(hits, key), windowStart);
      if |recent| >= maxAttempts {
        hits := hits[key := recent];
        return Verdict(true, 0);
      }
      recent := recent + [now];
      hits := hits[key := recent];
      return Verdict(false, maxAttempts - |recent|);
    }
  }

  function Pruned(hits: Hits, key: string, now: int, maxAttempts: int, windowMs: int): (Hits, Verdict) {
    var recent := Recent(TimesOf(hits, key), now - windowMs);
    var v := Judge(|recent|, maxAttempts);
    (hits[key := if v.limited then recent else recent + [now]], v)
  }

  // ---------------------------------------------------------------- the limiter that keeps everything

  datatype Attempt = Attempt(key: string, at: int)

  /** The accepted attempts of one key among all of them. */
  function Accepted(log: seq<Attempt>, key: string): seq<int> {
    if log == [] then []
    else Accepted(log[..|log| - 1], key) + (if log[|log| - 1].key == key then [log[|log| - 1].at] else [])
  }

  function Full(log: seq<Attempt>, a: Attempt, maxAttempts: int, windowMs: int): (seq<Attempt>, Verdict) {
    var v := Judge(|Recent(Accepted(log, a.key), a.at - windowMs)|, maxAttempts);
    (if v.limited then log else log + [a], v)
  }

  function PrunedRun(attempts: seq<Attempt>, maxAttempts: int, windowMs: int): (r: (Hits, seq<Verdict>))
    ensures |r.1| == |attempts|
  {
    if attempts == [] then (map[], [])
    else
      var (hits, vs) := PrunedRun(attempts[..|attempts| - 1], maxAttempts, windowMs);
      var a := attempts[|attempts| - 1];
      var (hits', v) := Pruned(hits, a.key, a.at, maxAttempts, windowMs);
      (hits', vs + [v])
  }

  function FullRun(attempts: seq<Attempt>, maxAttempts: int, windowMs: int): (r: (seq<Attempt>, seq<Verdict>))
    ensures |r.1| == |attempts|
  {
    if attempts == [] then ([], [])
    else
      var (log, vs) := FullRun(attempts[..|attempts| - 1], maxAttempts, windowMs);
      var (log', v) := Full(log, attempts[|attempts| - 1], maxAttempts, windowMs);
      (log', vs + [v])
  }

  // ---------------------------------------------------------------- pruning changes nothing

  lemma RecentSnoc(times: seq<int>, at: int, start: int)
    ensures Recent(times + [at], start) == Recent(times, start) + (if at > start then [at] else [])
  {
    assert (times + [at])[..|times|] == times;
  }

  /** What a window needs survives the pruning for an earlier one. */
  lemma {:induction false} RecentTwice(times: seq<int>, early: int, late: int)
    requires early <= late
    ensures Recent(Recent(times, early), late) == Recent(times, late)
  {
    if times != [] {
      var n := |times| - 1;
      RecentTwice(times[..n], early, late);
      if times[n] > early {
        RecentSnoc(Recent(times[..n], early), times[n], late);
      } else {
        assert Recent(times[..n], early) + [] == Recent(times[..n], early);
        assert Recent(times[..n], late) + [] == Recent(times[..n], late);
      }
    }
  }

  predicate Monotone(attempts: seq<Attempt>) {
    forall i, j :: 0 <= i < j < |attempts| ==> attempts[i].at <= attempts[j].at
  }

  /** From some window on, the kept times of a key and its full history look the same. */
  predicate Alike(hits: Hits, log: seq<Attempt>, key: string, start: int) {
    Recent(TimesOf(hits, key), start) == Recent(Accepted(log, key), start)
  }

  lemma AcceptedSnoc(log: seq<Attempt>, a: Attempt, key: string)
    ensures Accepted(log + [a], key) == Accepted(log, key) + (if a.key == key then [a.at] else [])
  {
    assert (log + [a])[..|log|] == log;
  }

  lemma PrunedTimes(hits: Hits, a: Attempt, maxAttempts: int, windowMs: int, key: string)
    ensures var (hits', v) := Pruned(hits, a.key, a.at, maxAttempts, windowMs);
      var recent := Recent(TimesOf(hits, a.key), a.at - windowMs);
      TimesOf(hits', key) == if key != a.key then TimesOf(hits, key) else if v.limited then recent else recent + [a.at]
  {
  }

  lemma FullTimes(log: seq<Attempt>, a: Attempt, maxAttempts: int, windowMs: int, key: string)
    ensures var (log', v) := Full(log, a, maxAttempts, windowMs);
      Accepted(log', key) == if key != a.key || v.limited then Accepted(log, key) else Accepted(log, key) + [a.at]
  {
    AcceptedSnoc(log, a, key);
    assert Accepted(log, key) + [] == Accepted(log, key);
  }

  lemma StepAlike(hits: Hits, log: seq<Attempt>, a: Attempt, maxAttempts: int, windowMs: int, key: string, start: int)
    requires a.at - windowMs <= start
    requires Alike(hits, log, key, start) && Alike(hits, log, a.key, a.at - windowMs)
    ensures Alike(Pruned(hits, a.key, a.at, maxAttempts, windowMs).0, Full(log, a, maxAttempts, windowMs).0, key, start)
  {
    var (hits', v) := Pruned(hits, a.key, a.at, maxAttempts, windowMs);
    var (log', w) := Full(log, a, maxAttempts, windowMs);
    PrunedTimes(hits, a, maxAttempts, windowMs, key);
    FullTimes(log, a, maxAttempts, windowMs, key);
    if key == a.key {
      SameJudgement(hits, log, a, maxAttempts, windowMs);
      SameKeyAlike(hits', log', key, TimesOf(hits, key), Accepted(log, key), v.limited, a.at, a.at - windowMs, start);
    }
  }

  lemma SameKeyAlike(
    hits: Hits, log: seq<Attempt>, key: string, kept: seq<int>, all: seq<int>, limited: bool, at: int, early: int, start: int)
    requires early <= start && Recent(kept, early) == Recent(all, early)
    requires TimesOf(hits, key) == if limited then Recent(kept, early) else Recent(kept, early) + [at]
    requires Accepted(log, key) == if limited then all else all + [at]
    ensures Alike(hits, log, key, start)
  {
    KeptAlike(kept, all, at, early, start);
  }

  lemma KeptAlike(kept: seq<int>, all: seq<int>, at: int, early: int, late: int)
    requires early <= late && Recent(kept, early) == Recent(all, early)
    ensures Recent(Recent(kept, early), late) == Recent(all, late)
    ensures Recent(Recent(kept, early) + [at], late) == Recent(all + [at], late)
  {
    RecentTwice(all, early, late);
    RecentSnoc(Recent(kept, early), at, late);
    RecentSnoc(all, at, late);
  }

  /** The state reached by a run, for any window that starts no earlier than the last attempt's. */
  lemma {:induction false} RunAlike(attempts: seq<Attempt>, maxAttempts: int, windowMs: int, key: string, start: int)
    requires Monotone(attempts)
    requires attempts != [] ==> attempts[|attempts| - 1].at - windowMs <= start
    ensures Alike(PrunedRun(attempts, maxAttempts, windowMs).0, FullRun(attempts, maxAttempts, windowMs).0, key, start)
  {
    if attempts != [] {
      var before, a := attempts[..|attempts| - 1], attempts[|attempts| - 1];
      RunAlike(before, maxAttempts, windowMs, key, start);
      RunAlike(before, maxAttempts, windowMs, a.key, a.at - windowMs);
      StepAlike(PrunedRun(before, maxAttempts, windowMs).0, FullRun(before, maxAttempts, windowMs).0, a,
                maxAttempts, windowMs, key, start);
    }
  }

  /** While the clock does not go back, the limiter answers every attempt like one that forgets nothing. */
  lemma {:induction false} PruningIsInvisible(attempts: seq<Attempt>, maxAttempts: int, windowMs: int)
    requires Monotone(attempts)
    ensures PrunedRun(attempts, maxAttempts, windowMs).1 == FullRun(attempts, maxAttempts, windowMs).1
  {
    if attempts != [] {
      var before, a := attempts[..|attempts| - 1], attempts[|attempts| - 1];
      PruningIsInvisible(before, maxAttempts, windowMs);
      RunAlike(before, maxAttempts, windowMs, a.key, a.at - windowMs);
      SameJudgement(PrunedRun(before, maxAttempts, windowMs).0, FullRun(before, maxAttempts, windowMs).0, a, maxAttempts, windowMs);
    }
  }

  lemma SameJudgement(hits: Hits, log: seq<Attempt>, a: Attempt, maxAttempts: int, windowMs: int)
    requires Alike(hits, log, a.key, a.at - windowMs)
    ensures Pruned(hits, a.key, a.at, maxAttempts, windowMs).1 == Full(log, a, maxAttempts, windowMs).1
  {
  }

  lemma RunsSnoc(attempts: seq<Attempt>, a: Attempt, maxAttempts: int, windowMs: int)
    ensures var (hits, vs) := PrunedRun(attempts, maxAttempts, windowMs);
      var (hits', v) := Pruned(hits, a.key, a.at, maxAttempts, windowMs);
      PrunedRun(attempts + [a], maxAttempts, windowMs) == (hits', vs + [v])
    ensures var (log, vs) := FullRun(attempts, maxAttempts, windowMs);
      var (log', v) := Full(log, a, maxAttempts, windowMs);
      FullRun(attempts + [a], maxAttempts, windowMs) == (log', vs + [v])
  {
    assert (attempts + [a])[..|attempts|] == attempts;
  }

  // ---------------------------------------------------------------- which clocks it takes

  /** Histories with a clock that does not go back, whose last reading is some time. */
  predicate EndsAt(attempts: seq<Attempt>, at: int) {
    Monotone(attempts) && attempts != [] && attempts[|attempts| - 1].at == at
  }

  predicate NextAgrees(attempts: seq<Attempt>, next: Attempt, maxAttempts: int, windowMs: int) {
    PrunedRun(attempts + [next], maxAttempts, windowMs).1 == FullRun(attempts + [next], maxAttempts, windowMs).1
  }

  /** Whatever happened up to one reading of the clock, the next attempt at another is judged alike. */
  ghost predicate AgreesFrom(at: int, next: int, windowMs: int) {
    forall attempts: seq<Attempt>, key: string, maxAttempts: int :: EndsAt(attempts, at) ==>
      NextAgrees(attempts, Attempt(key, next), maxAttempts, windowMs)
  }

  lemma {:induction false} NothingAfter(times: seq<int>, start: int)
    requires forall i :: 0 <= i < |times| ==> times[i] <= start
    ensures Recent(times, start) == []
  {
    if times != [] {
      NothingAfter(times[..|times| - 1], start);
      assert Recent(times[..|times| - 1], start) + [] == Recent(times[..|times| - 1], start);
    }
  }

  /** What both limiters hold is no later than the last reading. */
  lemma {:induction false} NoneLater(attempts: seq<Attempt>, maxAttempts: int, windowMs: int, key: string, at: int)
    requires forall i :: 0 <= i < |attempts| ==> attempts[i].at <= at
    ensures forall i :: 0 <= i < |TimesOf(PrunedRun(attempts, maxAttempts, windowMs).0, key)| ==>
              TimesOf(PrunedRun(attempts, maxAttempts, windowMs).0, key)[i] <= at
    ensures forall i :: 0 <= i < |Accepted(FullRun(attempts, maxAttempts, windowMs).0, key)| ==>
              Accepted(FullRun(attempts, maxAttempts, windowMs).0, key)[i] <= at
  {
    if attempts != [] {
      var before, a := attempts[..|attempts| - 1], attempts[|attempts| - 1];
      NoneLater(before, maxAttempts, windowMs, key, at);
      PrunedTimes(PrunedRun(before, maxAttempts, windowMs).0, a, maxAttempts, windowMs, key);
      FullTimes(FullRun(before, maxAttempts, windowMs).0, a, maxAttempts, windowMs, key);
      RecentWithin(TimesOf(PrunedRun(before, maxAttempts, windowMs).0, key), a.at - windowMs, at);
    }
  }

  lemma {:induction false} RecentWithin(times: seq<int>, start: int, at: int)
    requires forall i :: 0 <= i < |times| ==> times[i] <= at
    ensures forall i :: 0 <= i < |Recent(times, start)| ==> Recent(times, start)[i] <= at
  {
    if times != [] {
      RecentWithin(times[..|times| - 1], start, at);
    }
  }

  /** How many attempts count for the next one, in either limiter. */
  function CountsPruned(attempts: seq<Attempt>, next: Attempt, maxAttempts: int, windowMs: int): nat {
    |Recent(TimesOf(PrunedRun(attempts, maxAttempts, windowMs).0, next.key), next.at - windowMs)|
  }

  function CountsFull(attempts: seq<Attempt>, next: Attempt, maxAttempts: int, windowMs: int): nat {
    |Recent(Accepted(FullRun(attempts, maxAttempts, windowMs).0, next.key), next.at - windowMs)|
  }

  lemma NextVerdict(attempts: seq<Attempt>, next: Attempt, maxAttempts: int, windowMs: int)
    requires Monotone(attempts)
    ensures NextAgrees(attempts, next, maxAttempts, windowMs) <==>
      Judge(CountsPruned(attempts, next, maxAttempts, windowMs), maxAttempts)
      == Judge(CountsFull(attempts, next, maxAttempts, windowMs), maxAttempts)
  {
    PruningIsInvisible(attempts, maxAttempts, windowMs);
    RunsSnoc(attempts, next, maxAttempts, windowMs);
    var vs := PrunedRun(attempts, maxAttempts, windowMs).1;
    var p := Judge(CountsPruned(attempts, next, maxAttempts, windowMs), maxAttempts);
    var f := Judge(CountsFull(attempts, next, maxAttempts, windowMs), maxAttempts);
    assert (vs + [p])[|vs|] == p && (vs + [f])[|vs|] == f;
  }

  lemma CountsLater(attempts: seq<Attempt>, at: int, next: Attempt, maxAttempts: int, windowMs: int)
    requires EndsAt(attempts, at) && (at <= next.at || at <= next.at - windowMs)
    ensures CountsPruned(attempts, next, maxAttempts, windowMs) == CountsFull(attempts, next, maxAttempts, windowMs)
  {
    if at <= next.at {
      RunAlike(attempts, maxAttempts, windowMs, next.key, next.at - windowMs);
    } else {
      CountsNothing(attempts, at, next, maxAttempts, windowMs);
    }
  }

  lemma CountsNothing(attempts: seq<Attempt>, at: int, next: Attempt, maxAttempts: int, windowMs: int)
    requires (forall i :: 0 <= i < |attempts| ==> attempts[i].at <= at) && at <= next.at - windowMs
    ensures CountsPruned(attempts, next, maxAttempts, windowMs) == CountsFull(attempts, next, maxAttempts, windowMs) == 0
  {
    NoneLater(attempts, maxAttempts, windowMs, next.key, at);
    NothingAfter(TimesOf(PrunedRun(attempts, maxAttempts, windowMs).0, next.key), next.at - windowMs);
    NothingAfter(Accepted(FullRun(attempts, maxAttempts, windowMs).0, next.key), next.at - windowMs);
  }

  lemma NextLater(attempts: seq<Attempt>, at: int, next: Attempt, maxAttempts: int, windowMs: int)
    requires EndsAt(attempts, at) && (at <= next.at || at <= next.at - windowMs)
    ensures NextAgrees(attempts, next, maxAttempts, windowMs)
  {
    NextVerdict(attempts, next, maxAttempts, windowMs);
    CountsLater(attempts, at, next, maxAttempts, windowMs);
  }

  /** Two accepted attempts, the first of which the second one prunes. */
  lemma TwoAccepted(key: string, early: int, at: int, windowMs: int)
    requires early <= at && early <= at - windowMs
    ensures var attempts := [Attempt(key, early), Attempt(key, at)];
      && EndsAt(attempts, at)
      && TimesOf(PrunedRun(attempts, 2, windowMs).0, key) == [at]
      && Accepted(FullRun(attempts, 2, windowMs).0, key) == [early, at]
  {
    var a, b := Attempt(key, early), Attempt(key, at);
    var none: seq<Attempt> := [];
    RunsSnoc(none, a, 2, windowMs);
    RunsSnoc(none + [a], b, 2, windowMs);
    assert none + [a] == [a] && [a] + [b] == [a, b];
    FirstAccepted(a, windowMs);
    NothingAfter([early], at - windowMs);
    PrunedTimes(map[key := [early]], b, 2, windowMs, key);
    FullTimes([a], b, 2, windowMs, key);
    assert [] + [at] == [at] && [early] + [at] == [early, at];
  }

  lemma FirstAccepted(a: Attempt, windowMs: int)
    ensures Pruned(map[], a.key, a.at, 2, windowMs).0 == map[a.key := [a.at]]
    ensures Full([], a, 2, windowMs).0 == [a] && Accepted([a], a.key) == [a.at]
  {
    assert [] + [a.at] == [a.at] && [] + [a] == [a];
    AcceptedSnoc([], a, a.key);
  }

  /** A clock that goes back shows what was pruned: at most one of two attempts counts. */
  lemma ClockGoingBack(key: string, at: int, next: int, windowMs: int)
    requires next < at && next - windowMs < at
    ensures exists early :: EndsAt([Attempt(key, early), Attempt(key, at)], at)
              && !NextAgrees([Attempt(key, early), Attempt(key, at)], Attempt(key, next), 2, windowMs)
  {
    var early := if windowMs >= 0 then at - windowMs else at;
    var attempts := [Attempt(key, early), Attempt(key, at)];
    TwoAccepted(key, early, at, windowMs);
    CountsGiven(attempts, Attempt(key, next), [at], [early, at], windowMs);
    TwoRecent(early, at, next - windowMs);
    NextVerdict(attempts, Attempt(key, next), 2, windowMs);
    assert !NextAgrees(attempts, Attempt(key, next), 2, windowMs);
  }

  lemma CountsGiven(attempts: seq<Attempt>, next: Attempt, kept: seq<int>, all: seq<int>, windowMs: int)
    requires TimesOf(PrunedRun(attempts, 2, windowMs).0, next.key) == kept
    requires Accepted(FullRun(attempts, 2, windowMs).0, next.key) == all
    ensures CountsPruned(attempts, next, 2, windowMs) == |Recent(kept, next.at - windowMs)|
    ensures CountsFull(attempts, next, 2, windowMs) == |Recent(all, next.at - windowMs)|
  {
  }

  lemma TwoRecent(early: int, at: int, start: int)
    requires start < early <= at
    ensures Recent([at], start) == [at] && Recent([early, at], start) == [early, at]
  {
    RecentSnoc([], at, start);
    RecentSnoc([early], at, start);
    RecentSnoc([], early, start);
    assert [] + [at] == [at] && [early] + [at] == [early, at] && [] + [early] == [early];
  }

  /**
   * After every history that ends at one reading of the clock, the next verdict is that of a limiter that forgets
   * nothing exactly when the clock did not go back, or by so much that nothing counts, which takes a negative window.
   */
  lemma AgreesIffClockAdvances(at: int, next: int, windowMs: int)
    ensures AgreesFrom(at, next, windowMs) <==> at <= next || at <= next - windowMs
  {
    if at <= next || at <= next - windowMs {
      forall attempts: seq<Attempt>, key: string, maxAttempts: int | EndsAt(attempts, at)
        ensures NextAgrees(attempts, Attempt(key, next), maxAttempts, windowMs)
      {
        NextLater(attempts, at, Attempt(key, next), maxAttempts, windowMs);
      }
    } else {
      ClockGoingBack("k", at, next, windowMs);
    }
  }

  // ---------------------------------------------------------------- the limit

  /** How many times fall into a half-open window. */
  function InWindow(times: seq<int>, from: int, windowMs: int): nat {
    if times == [] then 0
    else
      var last := times[|times| - 1];
      InWindow(times[..|times| - 1], from, windowMs) + (if from <= last < from + windowMs then 1 else 0)
  }

  /** Each time was accepted with fewer than the maximum in the window that ended there. */
  ghost predicate Paced(times: seq<int>, maxAttempts: int, windowMs: int) {
    forall j :: 0 <= j < |times| ==> PacedAt(times, j, maxAttempts, windowMs)
  }

  predicate PacedAt(times: seq<int>, j: nat, maxAttempts: int, windowMs: int)
    requires j < |times|
  {
    |Recent(times[..j], times[j] - windowMs)| < maxAttempts
  }

  lemma PacedByPrefix(times: seq<int>, others: seq<int>, j: nat, maxAttempts: int, windowMs: int)
    requires j < |times| && j < |others| && times[..j] == others[..j] && times[j] == others[j]
    requires PacedAt(times, j, maxAttempts, windowMs)
    ensures PacedAt(others, j, maxAttempts, windowMs)
  {
  }

  lemma {:induction false} WindowWithinRecent(times: seq<int>, from: int, windowMs: int, start: int)
    requires start < from
    ensures InWindow(times, from, windowMs) <= |Recent(times, start)|
  {
    if times != [] {
      WindowWithinRecent(times[..|times| - 1], from, windowMs, start);
    }
  }

  lemma PacedPrefix(times: seq<int>, maxAttempts: int, windowMs: int)
    requires times != [] && Paced(times, maxAttempts, windowMs)
    ensures Paced(times[..|times| - 1], maxAttempts, windowMs)
  {
    var shorter := times[..|times| - 1];
    forall j | 0 <= j < |shorter|
      ensures PacedAt(shorter, j, maxAttempts, windowMs)
    {
      assert shorter[..j] == times[..j];
      PacedByPrefix(times, shorter, j, maxAttempts, windowMs);
    }
  }

  lemma {:induction false} PacedWindow(times: seq<int>, maxAttempts: int, windowMs: int, from: int)
    requires Paced(times, maxAttempts, windowMs) && maxAttempts >= 0
    ensures InWindow(times, from, windowMs) <= maxAttempts
  {
    if times != [] {
      var n := |times| - 1;
      PacedPrefix(times, maxAttempts, windowMs);
      assert PacedAt(times, n, maxAttempts, windowMs);
      if from <= times[n] < from + windowMs {
        WindowWithinRecent(times[..n], from, windowMs, times[n] - windowMs);
      } else {
        PacedWindow(times[..n], maxAttempts, windowMs, from);
      }
    }
  }

  lemma PacedSnoc(times: seq<int>, at: int, maxAttempts: int, windowMs: int)
    requires Paced(times, maxAttempts, windowMs) && |Recent(times, at - windowMs)| < maxAttempts
    ensures Paced(times + [at], maxAttempts, windowMs)
  {
    var longer := times + [at];
    forall j | 0 <= j < |longer|
      ensures PacedAt(longer, j, maxAttempts, windowMs)
    {
      SnocPrefix(times, at, j);
      if j < |times| {
        PacedByPrefix(times, longer, j, maxAttempts, windowMs);
      }
    }
  }

  lemma SnocPrefix(times: seq<int>, at: int, j: nat)
    requires j <= |times|
    ensures (times + [at])[..j] == times[..j]
    ensures j == |times| ==> (times + [at])[..j] == times && (times + [at])[j] == at
    ensures j < |times| ==> (times + [at])[j] == times[j]
  {
  }

  lemma {:induction false} FullIsPaced(attempts: seq<Attempt>, maxAttempts: int, windowMs: int, key: string)
    ensures Paced(Accepted(FullRun(attempts, maxAttempts, windowMs).0, key), maxAttempts, windowMs)
  {
    if attempts != [] {
      var before, a := attempts[..|attempts| - 1], attempts[|attempts| - 1];
      FullIsPaced(before, maxAttempts, windowMs, key);
      var log := FullRun(before, maxAttempts, windowMs).0;
      assert (log + [a])[..|log|] == log;
      if a.key == key {
        if !Full(log, a, maxAttempts, windowMs).1.limited {
          PacedSnoc(Accepted(log, key), a.at, maxAttempts, windowMs);
        }
      } else {
        assert Accepted(log, key) + [] == Accepted(log, key);
      }
    }
  }

  /** The attempts of a key that a run of verdicts let through. */
  function LetThrough(attempts: seq<Attempt>, vs: seq<Verdict>, key: string): seq<int>
    requires |attempts| == |vs|
  {
    if attempts == [] then []
    else
      var n := |attempts| - 1;
      LetThrough(attempts[..n], vs[..n], key) + (if attempts[n].key == key && !vs[n].limited then [attempts[n].at] else [])
  }

  lemma {:induction false} FullLetsThrough(attempts: seq<Attempt>, maxAttempts: int, windowMs: int, key: string)
    ensures LetThrough(attempts, FullRun(attempts, maxAttempts, windowMs).1, key)
         == Accepted(FullRun(attempts, maxAttempts, windowMs).0, key)
  {
    if attempts != [] {
      var n := |attempts| - 1;
      var (log, vs) := FullRun(attempts[..n], maxAttempts, windowMs);
      var a := attempts[n];
      FullLetsThrough(attempts[..n], maxAttempts, windowMs, key);
      assert FullRun(attempts, maxAttempts, windowMs).1[..n] == vs;
      assert (log + [a])[..|log|] == log;
      assert Accepted(log, key) + [] == Accepted(log, key);
    }
  }

  /** No window of the given length holds more than the maximum of a key's accepted attempts. */
  lemma AtMostMaximum(attempts: seq<Attempt>, maxAttempts: int, windowMs: int, key: string, from: int)
    requires Monotone(attempts) && maxAttempts >= 0
    ensures InWindow(LetThrough(attempts, PrunedRun(attempts, maxAttempts, windowMs).1, key), from, windowMs) <= maxAttempts
  {
    PruningIsInvisible(attempts, maxAttempts, windowMs);
    FullLetsThrough(attempts, maxAttempts, windowMs, key);
    FullIsPaced(attempts, maxAttempts, windowMs, key);
    PacedWindow(Accepted(FullRun(attempts, maxAttempts, windowMs).0, key), maxAttempts, windowMs, from);
  }

  /** The attempts of a key that were let through after some time. */
  function LetThroughSince(attempts: seq<Attempt>, vs: seq<Verdict>, key: string, start: int): nat
    requires |attempts| == |vs|
  {
    if attempts == [] then 0
    else
      var n := |attempts| - 1;
      LetThroughSince(attempts[..n], vs[..n], key, start)
      + (if attempts[n].key == key && attempts[n].at > start && !vs[n].limited then 1 else 0)
  }

  lemma {:induction false} RecentLetThrough(attempts: seq<Attempt>, vs: seq<Verdict>, key: string, start: int)
    requires |attempts| == |vs|
    ensures |Recent(LetThrough(attempts, vs, key), start)| == LetThroughSince(attempts, vs, key, start)
  {
    if attempts != [] {
      var n := |attempts| - 1;
      RecentLetThrough(attempts[..n], vs[..n], key, start);
      RecentSnoc(LetThrough(attempts[..n], vs[..n], key), attempts[n].at, start);
      assert LetThrough(attempts[..n], vs[..n], key) + [] == LetThrough(attempts[..n], vs[..n], key);
    }
  }

  /**
   * While the clock does not go back: an attempt is refused exactly when the key was let through the maximum number of
   * times within the window before it; one that is let through is told how many more would be, and a refused one none.
   */
  lemma VerdictTells(before: seq<Attempt>, a: Attempt, maxAttempts: int, windowMs: int)
    requires Monotone(before + [a])
    ensures var vs := PrunedRun(before + [a], maxAttempts, windowMs).1;
      && |vs| == |before| + 1 && vs[..|before|] == PrunedRun(before, maxAttempts, windowMs).1
      && (var n := LetThroughSince(before, vs[..|before|], a.key, a.at - windowMs);
          && (vs[|before|].limited <==> n >= maxAttempts)
          && vs[|before|].remaining == (if vs[|before|].limited then 0 else maxAttempts - n - 1))
  {
    VerdictOfFull(before, a, maxAttempts, windowMs);
    var vs := PrunedRun(before, maxAttempts, windowMs).1;
    RecentLetThrough(before, vs, a.key, a.at - windowMs);
    LastVerdict(vs, Judge(|Recent(LetThrough(before, vs, a.key), a.at - windowMs)|, maxAttempts), PrunedRun(before + [a], maxAttempts, windowMs).1);
  }

  lemma LastVerdict(vs: seq<Verdict>, v: Verdict, all: seq<Verdict>)
    requires all == vs + [v]
    ensures all[..|vs|] == vs && all[|vs|] == v && |all| == |vs| + 1
  {
  }

  lemma VerdictOfFull(before: seq<Attempt>, a: Attempt, maxAttempts: int, windowMs: int)
    requires Monotone(before + [a])
    ensures var vs := PrunedRun(before, maxAttempts, windowMs).1;
      PrunedRun(before + [a], maxAttempts, windowMs).1 == vs + [Judge(|Recent(LetThrough(before, vs, a.key), a.at - windowMs)|, maxAttempts)]
  {
    EarlierMonotone(before, a);
    RunsSnoc(before, a, maxAttempts, windowMs);
    PruningIsInvisible(before, maxAttempts, windowMs);
    PruningIsInvisible(before + [a], maxAttempts, windowMs);
    FullLetsThrough(before, maxAttempts, windowMs, a.key);
  }

  lemma EarlierMonotone(before: seq<Attempt>, a: Attempt)
    requires Monotone(before + [a])
    ensures Monotone(before)
  {
    assert forall i :: 0 <= i < |before| ==> (before + [a])[i] == before[i];
  }

  /** Whatever happened up to one reading of the clock, the limit still holds after an attempt at another. */
  ghost predicate LimitHoldsFrom(at: int, next: int, windowMs: int) {
    forall attempts: seq<Attempt>, caller: string, key: string, maxAttempts: nat, from: int :: EndsAt(attempts, at) ==>
      LimitHolds(attempts + [Attempt(caller, next)], key, maxAttempts, windowMs, from)
  }

  predicate LimitHolds(attempts: seq<Attempt>, key: string, maxAttempts: nat, windowMs: int, from: int) {
    InWindow(LetThrough(attempts, PrunedRun(attempts, maxAttempts, windowMs).1, key), from, windowMs) <= maxAttempts
  }

  lemma {:induction false} EmptyWindow(times: seq<int>, from: int, windowMs: int)
    requires windowMs <= 0
    ensures InWindow(times, from, windowMs) == 0
  {
    if times != [] {
      EmptyWindow(times[..|times| - 1], from, windowMs);
    }
  }

  /** What the limiter holds of a key and what it has let through. */
  predicate Holds(attempts: seq<Attempt>, key: string, windowMs: int, kept: seq<int>, through: seq<int>) {
    TimesOf(PrunedRun(attempts, 2, windowMs).0, key) == kept && LetThrough(attempts, PrunedRun(attempts, 2, windowMs).1, key) == through
  }

  /** One more attempt of the key, with fewer than two recent ones. */
  lemma OneThrough(attempts: seq<Attempt>, key: string, at: int, windowMs: int, kept: seq<int>, through: seq<int>, recent: seq<int>)
    requires Holds(attempts, key, windowMs, kept, through)
    requires Recent(kept, at - windowMs) == recent && |recent| < 2
    ensures Holds(attempts + [Attempt(key, at)], key, windowMs, recent + [at], through + [at])
  {
    var a := Attempt(key, at);
    var (hits, vs) := PrunedRun(attempts, 2, windowMs);
    RunsSnoc(attempts, a, 2, windowMs);
    PrunedTimes(hits, a, 2, windowMs, key);
    LetThroughSnoc(attempts, vs, a, Judge(|recent|, 2), key);
  }

  lemma LetThroughSnoc(attempts: seq<Attempt>, vs: seq<Verdict>, a: Attempt, v: Verdict, key: string)
    requires |attempts| == |vs|
    ensures LetThrough(attempts + [a], vs + [v], key)
         == LetThrough(attempts, vs, key) + (if a.key == key && !v.limited then [a.at] else [])
  {
    assert (attempts + [a])[..|attempts|] == attempts && (vs + [v])[..|vs|] == vs;
  }

  lemma RecentOne(x: int, start: int)
    ensures Recent([x], start) == if x > start then [x] else []
    ensures Recent([x, x], start) == if x > start then [x, x] else []
  {
    RecentSnoc([], x, start);
    RecentSnoc([x], x, start);
    assert [] + [x] == [x] && [x] + [x] == [x, x];
  }

  /** Two attempts at one time, and a later one that prunes them. */
  lemma TwoPruned(key: string, early: int, at: int, windowMs: int) returns (attempts: seq<Attempt>)
    requires early <= at - windowMs && windowMs > 0
    ensures EndsAt(attempts, at) && Holds(attempts, key, windowMs, [at], [early, early, at])
  {
    var two := TwoEarly(key, early, windowMs);
    attempts := OneMorePrunes(two, key, early, at, windowMs);
    assert Monotone(attempts);
  }

  lemma TwoEarly(key: string, early: int, windowMs: int) returns (two: seq<Attempt>)
    requires windowMs > 0
    ensures two == [Attempt(key, early), Attempt(key, early)] && Holds(two, key, windowMs, [early, early], [early, early])
  {
    var none: seq<Attempt> := [];
    var a := Attempt(key, early);
    OneThrough(none, key, early, windowMs, [], [], []);
    RecentOne(early, early - windowMs);
    assert [] + [early] == [early] && [early] + [early] == [early, early];
    OneThrough(none + [a], key, early, windowMs, [early], [early], [early]);
    assert none + [a] + [a] == [a, a];
    two := none + [a] + [a];
  }

  lemma OneMorePrunes(two: seq<Attempt>, key: string, early: int, at: int, windowMs: int) returns (attempts: seq<Attempt>)
    requires Holds(two, key, windowMs, [early, early], [early, early]) && early <= at - windowMs
    ensures attempts == two + [Attempt(key, at)] && Holds(attempts, key, windowMs, [at], [early, early, at])
  {
    RecentOne(early, at - windowMs);
    OneThrough(two, key, at, windowMs, [early, early], [early, early], []);
    assert [] + [at] == [at] && [early, early] + [at] == [early, early, at];
    attempts := two + [Attempt(key, at)];
  }

  /** Three accepted attempts in a window for two: two early ones, which a later one pruned, and one after the clock went back. */
  lemma LimitBroken(key: string, at: int, next: int, windowMs: int) returns (attempts: seq<Attempt>, from: int)
    requires next < at && windowMs > 0
    ensures EndsAt(attempts, at) && !LimitHolds(attempts + [Attempt(key, next)], key, 2, windowMs, from)
  {
    from := if next < at - windowMs then next else at - windowMs;
    attempts := TwoPruned(key, from, at, windowMs);
    RecentOne(at, next - windowMs);
    OneThrough(attempts, key, next, windowMs, [at], [from, from, at], [at]);
    ThreeInWindow(from, at, next, windowMs);
  }

  lemma InWindowSnoc(times: seq<int>, last: int, from: int, windowMs: int)
    ensures InWindow(times + [last], from, windowMs)
         == InWindow(times, from, windowMs) + (if from <= last < from + windowMs then 1 else 0)
  {
    assert (times + [last])[..|times|] == times;
  }

  lemma ThreeInWindow(from: int, at: int, next: int, windowMs: int)
    requires from <= next < from + windowMs
    ensures InWindow([from, from, at] + [next], from, windowMs) >= 3
  {
    InWindowSnoc([from, from, at], next, from, windowMs);
    InWindowSnoc([from, from], at, from, windowMs);
    InWindowSnoc([from], from, from, windowMs);
    InWindowSnoc([], from, from, windowMs);
    assert [from, from] + [at] == [from, from, at] && [from] + [from] == [from, from] && [] + [from] == [from];
  }

  /** The limit survives an attempt after every history exactly when the clock does not go back, or the window is empty. */
  lemma LimitIffClockAdvances(at: int, next: int, windowMs: int)
    ensures LimitHoldsFrom(at, next, windowMs) <==> at <= next || windowMs <= 0
  {
    if at <= next || windowMs <= 0 {
      forall attempts: seq<Attempt>, caller: string, key: string, maxAttempts: nat, from: int | EndsAt(attempts, at)
        ensures LimitHolds(attempts + [Attempt(caller, next)], key, maxAttempts, windowMs, from)
      {
        var all := attempts + [Attempt(caller, next)];
        if at <= next {
          AtMostMaximum(all, maxAttempts, windowMs, key, from);
        } else {
          EmptyWindow(LetThrough(all, PrunedRun(all, maxAttempts, windowMs).1, key), from, windowMs);
        }
      }
    } else {
      var attempts, from := LimitBroken("k", at, next, windowMs);
    }
  }
}
