/** The circuit breaker: counters and a pruned window in the code, the full history in the
    specification. */
module CircuitBreaker {
  import opened Prelude

  datatype Sample = Sample(ts: real, ok: bool)

  /** Everything fed to the breaker since its last reset. */
  datatype Event = Submission(ts: real, ok: bool) | Closed(pnl: real)

  datatype Limits = Limits(
    maxConsecutiveFailures: int,
    windowSec: real,
    windowMinSamples: int,
    windowFailureRatio: real,
    maxConsecutiveLosses: Option<int>)

  // ---- What the history says ----

  function Samples(history: seq<Event>): seq<Sample> {
    if history == [] then []
    else
      var last := history[|history| - 1];
      var before := Samples(history[..|history| - 1]);
      if last.Submission? then before + [Sample(last.ts, last.ok)] else before
  }

  /** The samples no older than the window, seen from `now`. */
  function Recent(ss: seq<Sample>, now: real, windowSec: real): seq<Sample> {
    if ss == [] then []
    else
      var last := ss[|ss| - 1];
      var before := Recent(ss[..|ss| - 1], now, windowSec);
      if now - last.ts <= windowSec then before + [last] else before
  }

  /** What is left of a history pruned at its last sample. */
  function Pruned(ss: seq<Sample>, windowSec: real): seq<Sample> {
    if ss == [] then [] else Recent(ss, ss[|ss| - 1].ts, windowSec)
  }

  /** The window as of the last submission recorded. */
  function Window(history: seq<Event>, windowSec: real): seq<Sample> {
    Pruned(Samples(history), windowSec)
  }

  function Failures(ss: seq<Sample>): nat {
    if ss == [] then 0 else Failures(ss[..|ss| - 1]) + (if ss[|ss| - 1].ok then 0 else 1)
  }

  /** Length of the run of failed submissions at the end of the history. */
  function FailureRun(history: seq<Event>): nat {
    if history == [] then 0
    else
      var before := FailureRun(history[..|history| - 1]);
      match history[|history| - 1]
      case Submission(_, ok) => if ok then 0 else before + 1
      case Closed(_) => before
  }

  /** Length of the run of losing trades at the end of the history. */
  function LossRun(history: seq<Event>): nat {
    if history == [] then 0
    else
      var before := LossRun(history[..|history| - 1]);
      match history[|history| - 1]
      case Submission(_, _) => before
      case Closed(pnl) => if pnl >= 0.0 then 0 else before + 1
  }

  predicate TooManyFailures(ss: seq<Sample>, limits: Limits) {
    ss != [] && |ss| >= limits.windowMinSamples && (Failures(ss) as real) / (|ss| as real) >= limits.windowFailureRatio
  }

  /** The last event of the history meets one of the three thresholds. */
  predicate Alarms(history: seq<Event>, limits: Limits) {
    history != [] &&
    match history[|history| - 1]
    case Submission(_, _) =>
      FailureRun(history) >= limits.maxConsecutiveFailures || TooManyFailures(Window(history, limits.windowSec), limits)
    case Closed(pnl) =>
      pnl < 0.0 && limits.maxConsecutiveLosses.Some? && LossRun(history) >= limits.maxConsecutiveLosses.value
  }

  /** Some prefix of the history ended in an alarm. */
  ghost predicate EverAlarmed(history: seq<Event>, limits: Limits) {
    exists n :: 0 <= n <= |history| && Alarms(history[..n], limits)
  }

  /** Submissions were recorded with a clock that never runs backwards. */
  ghost predicate Chronological(ss: seq<Sample>) {
    forall i, j :: 0 <= i < j < |ss| ==> ss[i].ts <= ss[j].ts
  }

  lemma EverAlarmedStep(history: seq<Event>, e: Event, limits: Limits)
    ensures EverAlarmed(history + [e], limits) <==> EverAlarmed(history, limits) || Alarms(history + [e], limits)
  {
    var longer := history + [e];
    assert longer[..|longer|] == longer;
    assert forall n :: 0 <= n <= |history| ==> longer[..n] == history[..n];
    if EverAlarmed(longer, limits) {
      var n :| 0 <= n <= |longer| && Alarms(longer[..n], limits);
      assert n == |longer| || (n <= |history| && Alarms(history[..n], limits));
    }
    if EverAlarmed(history, limits) {
      var n :| 0 <= n <= |history| && Alarms(history[..n], limits);
      assert Alarms(longer[..n], limits);
    }
  }

  /** Pruning at an earlier instant loses nothing a later instant would keep. */
  lemma {:induction false} PruneEarlier(ss: seq<Sample>, early: real, late: real, windowSec: real)
    requires early <= late
    ensures Recent(Recent(ss, early, windowSec), late, windowSec) == Recent(ss, late, windowSec)
  {
    if ss != [] {
      PruneEarlier(ss[..|ss| - 1], early, late, windowSec);
      var kept := Recent(ss[..|ss| - 1], early, windowSec);
      assert (kept + [ss[|ss| - 1]])[..|kept|] == kept;
    }
  }

  lemma {:induction false} RecentDropsOldFront(ss: seq<Sample>, now: real, windowSec: real)
    requires ss != [] && now - ss[0].ts > windowSec
    ensures Recent(ss[1..], now, windowSec) == Recent(ss, now, windowSec)
  {
    if |ss| > 1 {
      RecentDropsOldFront(ss[..|ss| - 1], now, windowSec);
      assert ss[..|ss| - 1][1..] == ss[1..][..|ss| - 2];
    }
  }

  lemma {:induction false} RecentKeepsAll(ss: seq<Sample>, now: real, windowSec: real)
    requires forall i :: 0 <= i < |ss| ==> now - ss[i].ts <= windowSec
    ensures Recent(ss, now, windowSec) == ss
  {
    if ss != [] {
      RecentKeepsAll(ss[..|ss| - 1], now, windowSec);
    }
  }

  lemma {:induction false} RecentIsChronological(ss: seq<Sample>, now: real, windowSec: real)
    requires Chronological(ss)
    ensures Chronological(Recent(ss, now, windowSec))
    ensures forall s :: s in Recent(ss, now, windowSec) ==> s in ss
  {
    if ss != [] {
      var init := ss[..|ss| - 1];
      RecentIsChronological(init, now, windowSec);
      forall s | s in Recent(init, now, windowSec)
        ensures s.ts <= ss[|ss| - 1].ts
      {
        var k :| 0 <= k < |init| && init[k] == s;
        assert ss[k] == s;
      }
    }
  }

  lemma RecentStep(ss: seq<Sample>, s: Sample, now: real, windowSec: real)
    ensures
      Recent(ss + [s], now, windowSec)
      == if now - s.ts <= windowSec then Recent(ss, now, windowSec) + [s] else Recent(ss, now, windowSec)
  {
    assert (ss + [s])[..|ss|] == ss;
  }

  /** Appending the newest sample to a window already pruned, and pruning again, gives what pruning
      the whole history gives. */
  lemma WindowGrows(all: seq<Sample>, s: Sample, windowSec: real)
    requires 0.0 <= windowSec && Chronological(all) && forall x :: x in all ==> x.ts <= s.ts
    ensures Chronological(Pruned(all, windowSec) + [s])
    ensures Recent(Pruned(all, windowSec) + [s], s.ts, windowSec) == Recent(all + [s], s.ts, windowSec) != []
  {
    RecentStep(all, s, s.ts, windowSec);
    RecentStep(Pruned(all, windowSec), s, s.ts, windowSec);
    if all != [] {
      RecentIsChronological(all, all[|all| - 1].ts, windowSec);
      PruneEarlier(all, all[|all| - 1].ts, s.ts, windowSec);
    }
  }

  /** What one more submission, not before the last one, does to the figures of the history. */
  lemma SubmissionStep(history: seq<Event>, now: real, ok: bool, windowSec: real)
    requires Chronological(Samples(history)) && forall s :: s in Samples(history) ==> s.ts <= now
    ensures
      var longer := history + [Submission(now, ok)];
      && longer[|longer| - 1] == Submission(now, ok)
      && Chronological(Samples(longer)) && (forall s :: s in Samples(longer) ==> s.ts <= now)
      && Window(longer, windowSec) == Recent(Samples(history) + [Sample(now, ok)], now, windowSec)
      && FailureRun(longer) == (if ok then 0 else FailureRun(history) + 1)
      && LossRun(longer) == LossRun(history)
  {
    var longer := history + [Submission(now, ok)];
    assert longer[..|history|] == history;
    assert Samples(longer) == Samples(history) + [Sample(now, ok)];
  }

  class CircuitBreaker {
    const limits: Limits
    var samples: seq<Sample>
    var consecutiveFailures: nat
    var consecutiveLosses: nat
    var tripped: bool
    /** Everything recorded since the last reset. */
    ghost var history: seq<Event>

    /** The fields are exactly what the full history says they should be. */
    ghost predicate Valid()
      reads this
    {
      && 0.0 <= limits.windowSec
      && Chronological(Samples(history))
      && samples == Window(history, limits.windowSec)
      && consecutiveFailures == FailureRun(history)
      && consecutiveLosses == LossRun(history)
      && (tripped <==> EverAlarmed(history, limits))
    }

    /** `now` is not before the last submission recorded. */
    ghost predicate Follows(now: real)
      reads this
    {
      forall s :: s in Samples(history) ==> s.ts <= now
    }

    constructor (limits: Limits)
      requires 0.0 <= limits.windowSec
      ensures Valid() && this.limits == limits && history == []
    {
      this.limits := limits;
      samples, consecutiveFailures, consecutiveLosses, tripped := [], 0, 0, false;
      history := [];
    }

    method Reset()
      requires Valid()
      modifies this
      ensures Valid() && history == [] && !tripped
    {
      samples, consecutiveFailures, consecutiveLosses, tripped := [], 0, 0, false;
      history := [];
    }

    method Record(now: real, ok: bool)
      requires Valid() && Follows(now)
      modifies this
      ensures Valid() && Follows(now)
      ensures history == old(history) + [Submission(now, ok)]
    {
      ghost var longer := history + [Submission(now, ok)];
      SubmissionStep(history, now, ok, limits.windowSec);
      EverAlarmedStep(history, Submission(now, ok), limits);
      PruneWindow(now, ok);
      consecutiveFailures := if ok then 0 else consecutiveFailures + 1;
      history := longer;
      CheckThresholds();
    }

    /** Trip on a long enough run of failures, else on the failure ratio of the window. */
    method CheckThresholds()
      requires history != [] && history[|history| - 1].Submission?
      requires samples == Window(history, limits.windowSec) && samples != []
      requires consecutiveFailures == FailureRun(history)
      modifies this`tripped
      ensures tripped == (old(tripped) || Alarms(history, limits))
    {
      if consecutiveFailures >= limits.maxConsecutiveFailures {
        tripped := true;
        return;
      }
      if |samples| >= limits.windowMinSamples {
        var failures := CountFailures();
        if (failures as real) / (|samples| as real) >= limits.windowFailureRatio {
          tripped := true;
        }
      }
    }

    /** Append the new sample and drop expired ones from the front. */
    method PruneWindow(now: real, ok: bool)
      requires Valid() && Follows(now)
      modifies this`samples
      ensures samples == Recent(Samples(history) + [Sample(now, ok)], now, limits.windowSec) != []
    {
      WindowGrows(Samples(history), Sample(now, ok), limits.windowSec);
      samples := samples + [Sample(now, ok)];
      DropExpired(now);
    }

    method DropExpired(now: real)
      requires Chronological(samples)
      modifies this`samples
      ensures samples == Recent(old(samples), now, limits.windowSec)
    {
      while samples != [] && now - samples[0].ts > limits.windowSec
        invariant Chronological(samples)
        invariant Recent(samples, now, limits.windowSec) == Recent(old(samples), now, limits.windowSec)
      {
        RecentDropsOldFront(samples, now, limits.windowSec);
        samples := samples[1..];
      }
      RecentKeepsAll(samples, now, limits.windowSec);
    }

    method CountFailures() returns (n: nat)
      ensures n == Failures(samples)
    {
      n := 0;
      var i := 0;
      while i < |samples|
        invariant 0 <= i <= |samples|
        invariant n == Failures(samples[..i])
      {
        assert samples[..i + 1][..i] == samples[..i];
        n := n + (if samples[i].ok then 0 else 1);
        i := i + 1;
      }
      assert samples[..i] == samples;
    }

    method RecordPnl(pnl: Option<real>)
      requires Valid()
      modifies this
      ensures Valid()
      ensures history == old(history) + (if pnl.Some? then [Closed(pnl.value)] else [])
      ensures forall now :: old(Follows(now)) ==> Follows(now)
    {
      if pnl.None? {
        return;
      }
      ghost var longer := history + [Closed(pnl.value)];
      assert longer[..|history|] == history;
      assert Samples(longer) == Samples(history);
      EverAlarmedStep(history, Closed(pnl.value), limits);
      history := longer;
      if pnl.value >= 0.0 {
        consecutiveLosses := 0;
        return;
      }
      consecutiveLosses := consecutiveLosses + 1;
      if limits.maxConsecutiveLosses.Some? && consecutiveLosses >= limits.maxConsecutiveLosses.value {
        tripped := true;
      }
    }
  }

  /** Once tripped, no further event untrips the breaker. */
  lemma AlarmsLatch(history: seq<Event>, more: seq<Event>, limits: Limits)
    requires EverAlarmed(history, limits)
    ensures EverAlarmed(history + more, limits)
  {
    var n :| 0 <= n <= |history| && Alarms(history[..n], limits);
    assert (history + more)[..n] == history[..n];
  }

  /** The trailing runs mean what their names say: the last `k` submissions of the history failed
      exactly when the run is at least `k`. */
  lemma {:induction false} FailureRunCountsTrailingFailures(history: seq<Event>, k: nat)
    requires k <= |Samples(history)|
    ensures
      k <= FailureRun(history) <==>
      forall i :: |Samples(history)| - k <= i < |Samples(history)| ==> !Samples(history)[i].ok
  {
    if history != [] {
      var init := history[..|history| - 1];
      var last := history[|history| - 1];
      if last.Closed? {
        FailureRunCountsTrailingFailures(init, k);
      } else if k > 0 {
        FailureRunCountsTrailingFailures(init, k - 1);
        var before, now := Samples(init), Samples(history);
        assert now[|before|].ok == last.ok;
        assert forall i :: 0 <= i < |before| ==> now[i] == before[i];
        if !last.ok && forall i :: |before| - (k - 1) <= i < |before| ==> !before[i].ok {
          assert forall i :: |now| - k <= i < |now| ==> !now[i].ok;
        }
        if forall i :: |now| - k <= i < |now| ==> !now[i].ok {
          assert forall i :: |before| - (k - 1) <= i < |before| ==> now[i] == before[i] && !before[i].ok;
        }
      }
    }
  }

  /** The profits of the trades closed. */
  function Profits(history: seq<Event>): seq<real> {
    if history == [] then []
    else
      var last := history[|history| - 1];
      var before := Profits(history[..|history| - 1]);
      if last.Closed? then before + [last.pnl] else before
  }

  /** The last `k` trades closed lost money exactly when the loss run is at least `k`; a trade that
      broke even ends the run. */
  lemma {:induction false} LossRunCountsTrailingLosses(history: seq<Event>, k: nat)
    requires k <= |Profits(history)|
    ensures
      k <= LossRun(history) <==>
      forall i :: |Profits(history)| - k <= i < |Profits(history)| ==> Profits(history)[i] < 0.0
  {
    if history != [] {
      var init := history[..|history| - 1];
      var last := history[|history| - 1];
      if last.Submission? {
        LossRunCountsTrailingLosses(init, k);
      } else if k > 0 {
        LossRunCountsTrailingLosses(init, k - 1);
        var before, now := Profits(init), Profits(history);
        assert now[|before|] == last.pnl;
        assert forall i :: 0 <= i < |before| ==> now[i] == before[i];
        if last.pnl < 0.0 && forall i :: |before| - (k - 1) <= i < |before| ==> before[i] < 0.0 {
          assert forall i :: |now| - k <= i < |now| ==> now[i] < 0.0;
        }
        if forall i :: |now| - k <= i < |now| ==> now[i] < 0.0 {
          assert forall i :: |before| - (k - 1) <= i < |before| ==> now[i] == before[i] && before[i] < 0.0;
        }
      }
    }
  }

  // ---- What trips the breaker, counted on the history itself ----

  /** Event `i` is a submission no older than the window, seen from `now`. */
  predicate InWindow(history: seq<Event>, i: int, now: real, windowSec: real) {
    0 <= i < |history| && history[i].Submission? && now - history[i].ts <= windowSec
  }

  function InWindowSet(history: seq<Event>, now: real, windowSec: real): set<int> {
    set i | 0 <= i < |history| && InWindow(history, i, now, windowSec)
  }

  /** Those of them that failed. */
  function FailedInWindowSet(history: seq<Event>, now: real, windowSec: real): set<int> {
    set i | 0 <= i < |history| && InWindow(history, i, now, windowSec) && !history[i].ok
  }

  /** Failures are the samples that are not ok. */
  lemma {:induction false} FailuresCountFailed(ss: seq<Sample>)
    ensures Failures(ss) == |set i | 0 <= i < |ss| && !ss[i].ok|
  {
    if ss != [] {
      var init, last := ss[..|ss| - 1], |ss| - 1;
      FailuresCountFailed(init);
      var before, now := set i | 0 <= i < |init| && !init[i].ok, set i | 0 <= i < |ss| && !ss[i].ok;
      assert now == if ss[last].ok then before else before + {last};
    }
  }

  lemma WindowSetStep(init: seq<Event>, e: Event, now: real, windowSec: real)
    ensures
      var longer, last := init + [e], |init|;
      && InWindowSet(longer, now, windowSec)
         == InWindowSet(init, now, windowSec) + (if InWindow(longer, last, now, windowSec) then {last} else {})
  {
    var longer := init + [e];
    assert forall i :: 0 <= i < |init| ==> longer[i] == init[i];
    assert forall i :: 0 <= i < |init| ==> (InWindow(longer, i, now, windowSec) <==> InWindow(init, i, now, windowSec));
  }

  lemma FailedSetStep(init: seq<Event>, e: Event, now: real, windowSec: real)
    ensures
      var longer, last := init + [e], |init|;
      FailedInWindowSet(longer, now, windowSec)
      == FailedInWindowSet(init, now, windowSec)
         + (if InWindow(longer, last, now, windowSec) && !e.ok then {last} else {})
  {
    var longer := init + [e];
    assert forall i :: 0 <= i < |init| ==> longer[i] == init[i];
    assert forall i :: 0 <= i < |init| ==> (InWindow(longer, i, now, windowSec) <==> InWindow(init, i, now, windowSec));
  }

  lemma SamplesStep(init: seq<Event>, e: Event)
    ensures Samples(init + [e]) == if e.Submission? then Samples(init) + [Sample(e.ts, e.ok)] else Samples(init)
  {
    assert (init + [e])[..|init|] == init;
  }

  /** The samples inside the window, and the failures among them, are those of the history. */
  lemma {:induction false} WindowCountsHistory(history: seq<Event>, now: real, windowSec: real)
    ensures |Recent(Samples(history), now, windowSec)| == |InWindowSet(history, now, windowSec)|
    ensures Failures(Recent(Samples(history), now, windowSec)) == |FailedInWindowSet(history, now, windowSec)|
  {
    if history == [] {
      assert InWindowSet(history, now, windowSec) == {} && FailedInWindowSet(history, now, windowSec) == {};
    } else {
      var init, e := history[..|history| - 1], history[|history| - 1];
      assert history == init + [e];
      WindowCountsHistory(init, now, windowSec);
      WindowSetStep(init, e, now, windowSec);
      FailedSetStep(init, e, now, windowSec);
      SamplesStep(init, e);
      if e.Submission? {
        RecentStep(Samples(init), Sample(e.ts, e.ok), now, windowSec);
        FailuresStep(Recent(Samples(init), now, windowSec), Sample(e.ts, e.ok));
      }
    }
  }

  lemma FailuresStep(ss: seq<Sample>, s: Sample)
    ensures Failures(ss + [s]) == Failures(ss) + (if s.ok then 0 else 1)
  {
    assert (ss + [s])[..|ss|] == ss;
  }

  /** The last `k` submissions of the history failed. */
  ghost predicate LastFailed(history: seq<Event>, k: int) {
    && k <= |Samples(history)|
    && forall i :: 0 <= i && |Samples(history)| - k <= i < |Samples(history)| ==> !Samples(history)[i].ok
  }

  lemma {:induction false} FailureRunWithinSamples(history: seq<Event>)
    ensures FailureRun(history) <= |Samples(history)|
  {
    if history != [] {
      FailureRunWithinSamples(history[..|history| - 1]);
    }
  }

  /** Exactly when a submission trips the breaker: the last so many submissions failed, or there are
      enough within the window and at least the ratio of them failed. */
  lemma SubmissionAlarmsIff(history: seq<Event>, now: real, ok: bool, limits: Limits)
    ensures
      var longer := history + [Submission(now, ok)];
      var recent := |InWindowSet(longer, now, limits.windowSec)|;
      var failed := |FailedInWindowSet(longer, now, limits.windowSec)|;
      Alarms(longer, limits) <==>
      || LastFailed(longer, limits.maxConsecutiveFailures)
      || (0 < recent && recent >= limits.windowMinSamples && (failed as real) / (recent as real) >= limits.windowFailureRatio)
  {
    var longer := history + [Submission(now, ok)];
    var k := limits.maxConsecutiveFailures;
    assert longer[..|history|] == history;
    assert Samples(longer) == Samples(history) + [Sample(now, ok)];
    assert Window(longer, limits.windowSec) == Recent(Samples(longer), now, limits.windowSec);
    WindowCountsHistory(longer, now, limits.windowSec);
    FailureRunWithinSamples(longer);
    if 0 <= k <= |Samples(longer)| {
      FailureRunCountsTrailingFailures(longer, k);
    }
  }

  /** A closed trade trips the breaker exactly when it lost money and, with it, the last so many
      trades did. */
  lemma ClosingAlarmsIff(history: seq<Event>, pnl: real, limits: Limits)
    ensures
      var longer := history + [Closed(pnl)];
      Alarms(longer, limits) <==>
      && pnl < 0.0
      && limits.maxConsecutiveLosses.Some?
      && var k := limits.maxConsecutiveLosses.value;
         && k <= |Profits(longer)|
         && forall i :: 0 <= i && |Profits(longer)| - k <= i < |Profits(longer)| ==> Profits(longer)[i] < 0.0
  {
    var longer := history + [Closed(pnl)];
    assert longer[..|history|] == history;
    LossRunWithinProfits(longer);
    if limits.maxConsecutiveLosses.Some? {
      var k := limits.maxConsecutiveLosses.value;
      if 0 <= k <= |Profits(longer)| {
        LossRunCountsTrailingLosses(longer, k);
      }
    }
  }

  lemma {:induction false} LossRunWithinProfits(history: seq<Event>)
    ensures LossRun(history) <= |Profits(history)|
  {
    if history != [] {
      LossRunWithinProfits(history[..|history| - 1]);
    }
  }

  lemma SuccessRaisesNoAlarm(init: seq<Event>, now: real, limits: Limits)
    requires 0 < limits.maxConsecutiveFailures && 0.0 < limits.windowFailureRatio
    requires forall e :: e in init ==> if e.Submission? then e.ok else e.pnl >= 0.0
    ensures !Alarms(init + [Submission(now, true)], limits)
  {
    var history := init + [Submission(now, true)];
    SubmissionAlarmsIff(init, now, true, limits);
    LastSampleIs(init, now, true);
    assert forall i :: 0 <= i < |init| ==> init[i] in init;
    assert FailedInWindowSet(history, now, limits.windowSec) == {};
  }

  /** Successes and profits alone never trip a breaker whose limits are positive. */
  lemma {:induction false} GoodHistoryNeverTrips(history: seq<Event>, limits: Limits)
    requires 0 < limits.maxConsecutiveFailures && 0.0 < limits.windowFailureRatio
    requires forall e :: e in history ==> if e.Submission? then e.ok else e.pnl >= 0.0
    ensures !EverAlarmed(history, limits)
  {
    if history != [] {
      var init, last := history[..|history| - 1], history[|history| - 1];
      assert history == init + [last];
      assert forall e :: e in init ==> e in history;
      GoodHistoryNeverTrips(init, limits);
      EverAlarmedStep(init, last, limits);
      assert last in history;
      match last {
        case Submission(now, ok) => SuccessRaisesNoAlarm(init, now, limits);
        case Closed(pnl) => ClosingAlarmsIff(init, pnl, limits);
      }
    }
  }

  lemma LastSampleIs(history: seq<Event>, now: real, ok: bool)
    ensures
      var ss := Samples(history + [Submission(now, ok)]);
      ss != [] && ss[|ss| - 1] == Sample(now, ok)
  {
    assert (history + [Submission(now, ok)])[..|history|] == history;
  }
}
