/**
 * The sliding-window rate limiter behind `apply_rate_limit`: a log of request
 * timestamps, pruned to the trailing minute, and a sleep when sixty remain.
 * Time is integer milliseconds.
 */
module RateLimit {

  const WindowMs := 60000
  const MaxRequestsPerMinute := 60
  const WaitBufferMs := 100

  function Last(s: seq<int>): int
    requires |s| > 0
  {
    s[|s| - 1]
  }

  /** `now - t < 60`: the timestamp `t` still counts at time `now`. */
  predicate InWindow(t: int, now: int) {
    now - t < WindowMs
  }

  /** The timestamps still inside the window at time `now`, in their order. */
  function Prune(log: seq<int>, now: int): (kept: seq<int>)
    ensures |kept| <= |log|
    decreases |log|
  {
    if log == [] then []
    else
      var init := Prune(log[..|log| - 1], now);
      if InWindow(Last(log), now) then init + [Last(log)] else init
  }

  /** A timestamp survives the prune exactly when it was logged and is still inside the window. */
  lemma {:induction false} PruneMembers(log: seq<int>, now: int)
    ensures forall t :: t in Prune(log, now) <==> t in log && InWindow(t, now)
    decreases |log|
  {
    if log != [] {
      var init := log[..|log| - 1];
      PruneMembers(init, now);
      assert log == init + [Last(log)];
    }
  }

  /** Every copy of a timestamp still inside the window survives, and no copy of one outside it. */
  lemma {:induction false} PruneCounts(log: seq<int>, now: int)
    ensures forall t :: multiset(Prune(log, now))[t] == if InWindow(t, now) then multiset(log)[t] else 0
    decreases |log|
  {
    if log != [] {
      var init := log[..|log| - 1];
      PruneCounts(init, now);
      assert log == init + [Last(log)];
    }
  }

  /**
   * The prune keeps the survivors in their order: pruning a log made of two parts
   * is pruning each part, and a single timestamp stays exactly when it is in the window.
   */
  lemma {:induction false} PruneAppend(a: seq<int>, b: seq<int>, now: int)
    ensures Prune(a + b, now) == Prune(a, now) + Prune(b, now)
    ensures |b| == 1 ==> Prune(b, now) == if InWindow(b[0], now) then b else []
    decreases |b|
  {
    if b != [] {
      var init := b[..|b| - 1];
      PruneAppend(a, init, now);
      assert (a + b)[..|a + b| - 1] == a + init;
      assert Last(a + b) == Last(b);
      if |b| == 1 {
        assert init == [];
      }
    } else {
      assert a + b == a;
    }
  }

  /** `min(timestamps)`. */
  function Min(s: seq<int>): (m: int)
    requires |s| > 0
    ensures m in s
    ensures forall t :: t in s ==> m <= t
    decreases |s|
  {
    if |s| == 1 then
      assert forall t :: t in s ==> t == s[0];
      s[0]
    else
      var init := s[..|s| - 1];
      var m := Min(init);
      assert s == init + [Last(s)];
      assert forall t :: t in s ==> t in init || t == Last(s);
      if Last(s) < m then Last(s) else m
  }

  /** What one call of the limiter did: how long it slept, the timestamp it recorded, the new log. */
  datatype Admission = Admission(slept: int, recorded: int, log: seq<int>)

  /**
   * One call of `apply_rate_limit` that reads the clock at `now` and, after any
   * sleep, reads it again `slack` later to record the request. With sixty or
   * more timestamps left in the window it sleeps until the oldest has left it,
   * plus the buffer; the request is always recorded, never refused.
   */
  function Admit(log: seq<int>, now: int, slack: nat): (a: Admission)
    ensures a.log == Prune(log, now) + [a.recorded]
    ensures a.recorded == now + a.slept + slack && a.slept >= 0
  {
    var kept := Prune(log, now);
    var wait := if |kept| >= MaxRequestsPerMinute then WindowMs - (now - Min(kept)) + WaitBufferMs else 0;
    var slept := if wait > 0 then wait else 0;
    Admission(slept, now + slept + slack, kept + [now + slept + slack])
  }

  /**
   * Below sixty kept timestamps the limiter does not sleep. At sixty or more it
   * sleeps until the oldest has left the window, plus the buffer, so that the
   * oldest no longer counts when the request is recorded.
   */
  lemma AdmitSleepsUntilOldestLeaves(log: seq<int>, now: int, slack: nat)
    ensures var a := Admit(log, now, slack); var kept := Prune(log, now);
      (|kept| < MaxRequestsPerMinute ==> a.slept == 0) &&
      (|kept| >= MaxRequestsPerMinute ==>
         a.slept == WindowMs - (now - Min(kept)) + WaitBufferMs &&
         a.slept > WaitBufferMs && !InWindow(Min(kept), a.recorded))
  {
    PruneMembers(log, now);
  }

  predicate NonDecreasing(s: seq<int>) {
    forall i, j :: 0 <= i < j < |s| ==> s[i] <= s[j]
  }

  /** At most sixty entries of the log lie in the window that ends at its newest entry. */
  predicate WindowBounded(log: seq<int>) {
    log == [] || |Prune(log, Last(log))| <= MaxRequestsPerMinute
  }

  /** The clock reading `now` is not earlier than the newest entry of the log. */
  predicate ClockAfter(log: seq<int>, now: int) {
    log == [] || Last(log) <= now
  }

  /** A later clock keeps no more timestamps than an earlier one. */
  lemma {:induction false} PruneShrinksWithTime(log: seq<int>, earlier: int, later: int)
    requires earlier <= later
    ensures |Prune(log, later)| <= |Prune(log, earlier)|
    decreases |log|
  {
    if log != [] {
      PruneShrinksWithTime(log[..|log| - 1], earlier, later);
    }
  }

  /** A timestamp of the list that has left the window is dropped, so the list gets shorter. */
  lemma {:induction false} PruneDropsStale(s: seq<int>, now: int, x: int)
    requires x in s && !InWindow(x, now)
    ensures |Prune(s, now)| < |s|
    decreases |s|
  {
    var init := s[..|s| - 1];
    assert s == init + [Last(s)];
    if Last(s) != x {
      PruneDropsStale(init, now, x);
    }
  }

  lemma AppendNonDecreasing(s: seq<int>, x: int)
    requires NonDecreasing(s)
    requires forall t :: t in s ==> t <= x
    ensures NonDecreasing(s + [x])
  {
    forall i, j | 0 <= i < j < |s| + 1
      ensures (s + [x])[i] <= (s + [x])[j]
    {
      if j == |s| {
        assert (s + [x])[i] == s[i];
        assert s[i] in s;
      }
    }
  }

  lemma {:induction false} PruneKeepsOrder(log: seq<int>, now: int)
    requires NonDecreasing(log)
    ensures NonDecreasing(Prune(log, now))
    decreases |log|
  {
    if log != [] {
      var init := log[..|log| - 1];
      assert NonDecreasing(init);
      PruneKeepsOrder(init, now);
      PruneMembers(init, now);
      forall t | t in Prune(init, now)
        ensures t <= Last(log)
      {
        var i :| 0 <= i < |init| && init[i] == t;
        assert log[i] == t;
      }
      AppendNonDecreasing(Prune(init, now), Last(log));
    }
  }

  /**
   * Sequentially, with a clock that does not run backwards, a call keeps the log
   * ordered and keeps at most sixty timestamps in the window ending at the newest one.
   */
  lemma StepKeepsWindowBound(log: seq<int>, now: int, slack: nat)
    requires NonDecreasing(log) && WindowBounded(log) && ClockAfter(log, now)
    ensures var a := Admit(log, now, slack);
      NonDecreasing(a.log) && WindowBounded(a.log) && a.recorded >= now && ClockAfter(a.log, a.recorded)
  {
    var a := Admit(log, now, slack);
    var kept := Prune(log, now);
    if log != [] {
      PruneShrinksWithTime(log, Last(log), now);
    }
    assert |kept| <= MaxRequestsPerMinute;
    PruneKeepsOrder(log, now);
    PruneMembers(log, now);
    forall t | t in kept
      ensures t <= a.recorded
    {
      var i :| 0 <= i < |log| && log[i] == t;
      assert log[i] <= Last(log);
    }
    AppendNonDecreasing(kept, a.recorded);
    assert a.log[..|a.log| - 1] == kept;
    assert |Prune(a.log, a.recorded)| == |Prune(kept, a.recorded)| + 1;
    if |kept| == MaxRequestsPerMinute {
      AdmitSleepsUntilOldestLeaves(log, now, slack);
      PruneDropsStale(kept, a.recorded, Min(kept));
    }
  }

  /** The log is ordered, within the bound of sixty, and no newer than the clock `clock`. */
  predicate Healthy(log: seq<int>, clock: int) {
    NonDecreasing(log) && WindowBounded(log) && ClockAfter(log, clock)
  }

  /**
   * A sequential run of calls starting from `log` at time `clock`: each call reads
   * the clock `gap` after the previous one recorded its request, and records its
   * own `slack` after its sleep. The result is the final log and the time the last
   * request was recorded.
   */
  function Run(log: seq<int>, clock: int, calls: seq<(nat, nat)>): (seq<int>, int)
    decreases |calls|
  {
    if calls == [] then (log, clock)
    else
      var a := Admit(log, clock + calls[0].0, calls[0].1);
      Run(a.log, a.recorded, calls[1..])
  }

  /** One call of a run keeps the log healthy, and the rest of the run starts from its result. */
  lemma RunStep(log: seq<int>, clock: int, calls: seq<(nat, nat)>)
    requires Healthy(log, clock) && calls != []
    ensures var a := Admit(log, clock + calls[0].0, calls[0].1);
      Healthy(a.log, a.recorded) && Run(log, clock, calls) == Run(a.log, a.recorded, calls[1..])
  {
    StepKeepsWindowBound(log, clock + calls[0].0, calls[0].1);
  }

  /** However many calls a sequential run makes, the window bound of sixty holds after every one. */
  lemma {:induction false} RunKeepsWindowBound(log: seq<int>, clock: int, calls: seq<(nat, nat)>)
    requires Healthy(log, clock)
    ensures Healthy(Run(log, clock, calls).0, Run(log, clock, calls).1)
    decreases |calls|
  {
    if calls != [] {
      RunStep(log, clock, calls);
      var a := Admit(log, clock + calls[0].0, calls[0].1);
      RunKeepsWindowBound(a.log, a.recorded, calls[1..]);
    }
  }

  /** Calls spaced more than `WindowMs / MaxRequestsPerMinute` (one second) apart. */
  const SpacingMs := 1001

  /** Consecutive entries at least `gap` apart. */
  predicate Spaced(s: seq<int>, gap: int) {
    forall i :: 0 < i < |s| ==> s[i - 1] + gap <= s[i]
  }

  lemma {:induction false} SpacedIsOrdered(s: seq<int>, gap: nat)
    requires Spaced(s, gap) && |s| > 0
    ensures forall t :: t in s ==> t <= Last(s)
    decreases |s|
  {
    if |s| > 1 {
      var init := s[..|s| - 1];
      assert Spaced(init, gap);
      SpacedIsOrdered(init, gap);
      assert s == init + [Last(s)];
    }
  }

  lemma {:induction false} PruneKeepsSpacing(log: seq<int>, now: int, gap: nat)
    requires Spaced(log, gap)
    ensures Spaced(Prune(log, now), gap)
    decreases |log|
  {
    if log != [] {
      var init := log[..|log| - 1];
      assert Spaced(init, gap);
      PruneKeepsSpacing(init, now, gap);
      var k := Prune(init, now);
      if InWindow(Last(log), now) && k != [] {
        SpacedIsOrdered(init, gap);
        PruneMembers(init, now);
        assert Last(k) in k;
        assert Last(init) + gap <= Last(log) by {
          assert init[|init| - 1] == log[|log| - 2];
        }
        var r := k + [Last(log)];
        forall i | 0 < i < |r|
          ensures r[i - 1] + gap <= r[i]
        {
          if i == |r| - 1 {
            assert r[i - 1] == Last(k);
          } else {
            assert r[i - 1] == k[i - 1] && r[i] == k[i];
          }
        }
      }
    }
  }

  /**
   * In a log spaced a second apart whose newest entry lies `dist` before `now`, the
   * kept entries number zero, or few enough that the oldest of them, `dist` plus
   * one second per further entry back, is still inside the window.
   */
  lemma {:induction false} SpacedPruneCount(log: seq<int>, now: int, dist: int)
    requires Spaced(log, SpacingMs)
    requires log != [] ==> Last(log) + dist <= now
    ensures var c := |Prune(log, now)|; c == 0 || dist + (c - 1) * SpacingMs < WindowMs
    decreases |log|
  {
    if log != [] {
      var init := log[..|log| - 1];
      assert Spaced(init, SpacingMs);
      if init != [] {
        assert Last(init) + SpacingMs <= Last(log) by {
          assert init[|init| - 1] == log[|log| - 2];
        }
      }
      SpacedPruneCount(init, now, dist + SpacingMs);
    }
  }

  /** A call made more than a second after the last of a log of calls so spaced never sleeps. */
  lemma SpacedCallNeverWaits(log: seq<int>, now: int, slack: nat)
    requires Spaced(log, SpacingMs)
    requires log != [] ==> Last(log) + SpacingMs <= now
    ensures Admit(log, now, slack).slept == 0
    ensures Spaced(Admit(log, now, slack).log, SpacingMs)
  {
    SpacedPruneCount(log, now, SpacingMs);
    var kept := Prune(log, now);
    assert |kept| < MaxRequestsPerMinute;
    PruneKeepsSpacing(log, now, SpacingMs);
    var a := Admit(log, now, slack);
    if kept != [] {
      SpacedIsOrdered(log, SpacingMs);
      PruneMembers(log, now);
      assert Last(kept) in kept;
      forall i | 0 < i < |a.log|
        ensures a.log[i - 1] + SpacingMs <= a.log[i]
      {
        if i == |a.log| - 1 {
          assert a.log[i - 1] == Last(kept);
        } else {
          assert a.log[i - 1] == kept[i - 1] && a.log[i] == kept[i];
        }
      }
    }
  }

  /** How long each call of a sequential run slept, in order. */
  function RunSleeps(log: seq<int>, clock: int, calls: seq<(nat, nat)>): (sleeps: seq<int>)
    ensures |sleeps| == |calls|
    decreases |calls|
  {
    if calls == [] then []
    else
      var a := Admit(log, clock + calls[0].0, calls[0].1);
      [a.slept] + RunSleeps(a.log, a.recorded, calls[1..])
  }

  /** Every call of a run reads the clock more than a second after the previous one recorded. */
  predicate WellSpaced(calls: seq<(nat, nat)>) {
    forall i :: 0 <= i < |calls| ==> calls[i].0 >= SpacingMs
  }

  lemma WellSpacedTail(calls: seq<(nat, nat)>)
    requires WellSpaced(calls) && calls != []
    ensures WellSpaced(calls[1..])
  {
    forall i | 0 <= i < |calls[1..]|
      ensures calls[1..][i].0 >= SpacingMs
    {
      assert calls[1..][i] == calls[i + 1];
    }
  }

  /** No call of a run slept. */
  predicate AllZero(sleeps: seq<int>) {
    forall i :: 0 <= i < |sleeps| ==> sleeps[i] == 0
  }

  lemma AllZeroCons(rest: seq<int>)
    requires AllZero(rest)
    ensures AllZero([0] + rest)
  {
    forall i | 0 < i < |[0] + rest|
      ensures ([0] + rest)[i] == 0
    {
      assert ([0] + rest)[i] == rest[i - 1];
    }
  }

  /** The first call of a well-spaced run does not sleep, and the rest of the run starts from its result. */
  lemma SpacedRunStep(log: seq<int>, clock: int, calls: seq<(nat, nat)>)
    requires Spaced(log, SpacingMs) && ClockAfter(log, clock)
    requires calls != [] && calls[0].0 >= SpacingMs
    ensures var a := Admit(log, clock + calls[0].0, calls[0].1);
      Spaced(a.log, SpacingMs) && ClockAfter(a.log, a.recorded) &&
      RunSleeps(log, clock, calls) == [0] + RunSleeps(a.log, a.recorded, calls[1..])
  {
    SpacedCallNeverWaits(log, clock + calls[0].0, calls[0].1);
  }

  /** A run whose calls come more than a second apart never sleeps. */
  lemma {:induction false} SpacedRunNeverWaits(log: seq<int>, clock: int, calls: seq<(nat, nat)>)
    requires Spaced(log, SpacingMs) && ClockAfter(log, clock)
    requires WellSpaced(calls)
    ensures AllZero(RunSleeps(log, clock, calls))
    decreases |calls|
  {
    if calls != [] {
      var a := Admit(log, clock + calls[0].0, calls[0].1);
      SpacedRunStep(log, clock, calls);
      WellSpacedTail(calls);
      SpacedRunNeverWaits(a.log, a.recorded, calls[1..]);
      AllZeroCons(RunSleeps(a.log, a.recorded, calls[1..]));
    }
  }
}
