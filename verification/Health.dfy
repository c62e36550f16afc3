/** Docker HEALTHCHECK semantics (`satl-agent/src/health.rs`): resolving a
    healthcheck, folding probe results into a verdict, and the prober loop that
    publishes the fold.  Times and durations are whole nanoseconds. */
module Health {
  import T = TaskStates

  const U32_MAX: nat := 0xFFFF_FFFF
  const SECOND: nat := 1_000_000_000
  const DEFAULT_INTERVAL: nat := 30 * SECOND
  const DEFAULT_TIMEOUT: nat := 30 * SECOND
  const DEFAULT_START_INTERVAL: nat := 5 * SECOND
  const DEFAULT_RETRIES: nat := 3
  const MAX_LOG_ENTRIES: nat := 5
  const PROBE_SHELL: seq<string> := ["/bin/sh", "-c"]

  datatype HealthStatus = Starting | Healthy | Unhealthy

  datatype ProbeResult = ProbeResult(start: int, end: int, exitCode: int, output: string) {
    predicate IsSuccess() { exitCode == 0 }
  }

  datatype TaskHealth = TaskHealth(status: HealthStatus, failingStreak: nat, log: seq<ProbeResult>)

  const DefaultHealth := TaskHealth(Starting, 0, [])

  // ---- Resolving a healthcheck ---------------------------------------------

  datatype HealthConfig = HealthConfig(
    test: seq<string>, interval: T.Option<nat>, timeout: T.Option<nat>, retries: nat,
    startPeriod: T.Option<nat>)

  datatype ProbeSettings = ProbeSettings(
    argv: seq<string>, interval: nat, timeout: nat, retries: nat, startPeriod: nat
  ) {
    /** What `resolve` guarantees about the settings it hands out. */
    predicate Valid() { argv != [] && interval > 0 && timeout > 0 && 1 <= retries <= U32_MAX }
  }

  datatype ProbeResolution = Disabled | Unknown(kind: string) | Enabled(settings: ProbeSettings)

  function PositiveOr(value: T.Option<nat>, default: nat): (r: nat)
    ensures value.Some? && value.value > 0 ==> r == value.value
    ensures value.None? || value.value == 0 ==> r == default
  {
    if value.Some? && value.value > 0 then value.value else default
  }

  /** `ProbeSettings::resolve`. */
  function Resolve(config: HealthConfig): (r: ProbeResolution)
    requires config.retries <= U32_MAX
    ensures r.Enabled? ==> r.settings.Valid()
    ensures r.Enabled? <==> |config.test| > 1 && config.test[0] in {"CMD", "CMD-SHELL"}
    ensures r.Unknown? <==> config.test != [] && config.test[0] !in {"NONE", "", "CMD", "CMD-SHELL"}
    ensures r.Enabled? ==>
              && r.settings.argv == (if config.test[0] == "CMD" then [] else ["/bin/sh", "-c"]) + config.test[1..]
              && r.settings.interval == (if config.interval.Some? && config.interval.value > 0 then config.interval.value else 30 * SECOND)
              && r.settings.timeout == (if config.timeout.Some? && config.timeout.value > 0 then config.timeout.value else 30 * SECOND)
              && r.settings.retries == (if config.retries == 0 then 3 else config.retries)
              && r.settings.startPeriod == (if config.startPeriod.Some? then config.startPeriod.value else 0)
  {
    if config.test == [] then Disabled
    else
      var kind := config.test[0];
      var rest := config.test[1..];
      if kind == "NONE" || kind == "" then Disabled
      else if kind != "CMD" && kind != "CMD-SHELL" then Unknown(kind)
      else if rest == [] then Disabled
      else
        var shell := kind == "CMD-SHELL";
        Enabled(ProbeSettings(
                  (if shell then PROBE_SHELL else []) + rest,
                  PositiveOr(config.interval, DEFAULT_INTERVAL),
                  PositiveOr(config.timeout, DEFAULT_TIMEOUT),
                  if config.retries == 0 then DEFAULT_RETRIES else config.retries,
                  if config.startPeriod.Some? then config.startPeriod.value else 0))
  }

  // ---- The fold ------------------------------------------------------------

  /** `within_start_period`: a time before the start counts as outside. */
  predicate WithinStartPeriod(s: ProbeSettings, startedAt: int, when: int)
    ensures WithinStartPeriod(s, startedAt, when) <==> startedAt <= when < startedAt + s.startPeriod
  {
    s.startPeriod != 0 && startedAt <= when && when - startedAt < s.startPeriod
  }

  function Min(a: int, b: int): int { if a <= b then a else b }

  /** The last `n` elements. */
  function Tail<A>(xs: seq<A>, n: nat): seq<A>
  {
    if |xs| <= n then xs else xs[|xs| - n..]
  }

  /** One probe result folded into the health. */
  function Folded(s: ProbeSettings, startedAt: int, h: TaskHealth, result: ProbeResult): TaskHealth
  {
    var log := Tail(h.log + [result], MAX_LOG_ENTRIES);
    if result.IsSuccess() then
      TaskHealth(Healthy, 0, log)
    else if h.status == Starting && WithinStartPeriod(s, startedAt, result.start) then
      h.(log := log)
    else
      var streak := Min(h.failingStreak + 1, U32_MAX);
      TaskHealth(if streak >= s.retries then Unhealthy else h.status, streak, log)
  }

  /** The health after a whole history of probes. */
  function Fold(s: ProbeSettings, startedAt: int, history: seq<ProbeResult>): TaskHealth
  {
    if history == [] then DefaultHealth
    else Folded(s, startedAt, Fold(s, startedAt, history[..|history| - 1]), history[|history| - 1])
  }

  datatype HealthTransition = HealthTransition(from: HealthStatus, to: HealthStatus)

  class HealthTracker {
    const settings: ProbeSettings
    const startedAt: int
    var health: TaskHealth
    ghost var history: seq<ProbeResult>

    ghost predicate Valid()
      reads this
    {
      health == Fold(settings, startedAt, history)
    }

    constructor (settings: ProbeSettings, startedAt: int)
      ensures Valid() && history == []
      ensures this.settings == settings && this.startedAt == startedAt
    {
      this.settings, this.startedAt := settings, startedAt;
      this.health, this.history := DefaultHealth, [];
    }

    /** Record one probe result; reports the status change if there was one. */
    method Record(result: ProbeResult) returns (transition: T.Option<HealthTransition>)
      requires Valid()
      modifies this
      ensures Valid() && history == old(history) + [result]
      ensures transition.Some? <==> health.status != old(health.status)
      ensures transition.Some? ==> transition.value == HealthTransition(old(health.status), health.status)
    {
      FoldKeepsTail(settings, startedAt, history);
      FoldStep(settings, startedAt, history, result);
      TrimThenPush(health.log, result);
      var from := health.status;
      if |health.log| >= MAX_LOG_ENTRIES {
        health := health.(log := health.log[|health.log| + 1 - MAX_LOG_ENTRIES..]);
      }
      var success := result.IsSuccess();
      var inStartPeriod := WithinStartPeriod(settings, startedAt, result.start);
      health := health.(log := health.log + [result]);
      if success {
        health := health.(failingStreak := 0, status := Healthy);
      } else if from == Starting && inStartPeriod {
      } else {
        health := health.(failingStreak := Min(health.failingStreak + 1, U32_MAX));
        if health.failingStreak >= settings.retries {
          health := health.(status := Unhealthy);
        }
      }
      transition := if from != health.status then T.Some(HealthTransition(from, health.status)) else T.None;
      history := history + [result];
    }

    /** How long to wait before the next probe. */
    function NextDelay(now: int): (delay: nat)
      reads this
      ensures delay <= settings.interval
      ensures delay < settings.interval ==> delay == 5 * SECOND
      ensures delay < settings.interval <==>
                && health.status == Starting && startedAt <= now < startedAt + settings.startPeriod
                && 5 * SECOND < settings.interval
    {
      if health.status == Starting && WithinStartPeriod(settings, startedAt, now) then
        Min(settings.interval, DEFAULT_START_INTERVAL)
      else
        settings.interval
    }
  }

  lemma FoldStep(s: ProbeSettings, startedAt: int, history: seq<ProbeResult>, result: ProbeResult)
    ensures Fold(s, startedAt, history + [result]) == Folded(s, startedAt, Fold(s, startedAt, history), result)
  {
    assert (history + [result])[..|history|] == history;
  }

  /** Dropping the oldest entries first leaves the same log. */
  lemma TrimThenPush(log: seq<ProbeResult>, result: ProbeResult)
    requires |log| <= MAX_LOG_ENTRIES
    ensures (if |log| >= MAX_LOG_ENTRIES then log[|log| + 1 - MAX_LOG_ENTRIES..] else log) + [result]
         == Tail(log + [result], MAX_LOG_ENTRIES)
  {
  }

  // ---- The closed form -----------------------------------------------------

  ghost predicate EverSucceeded(history: seq<ProbeResult>)
  {
    exists i :: 0 <= i < |history| && history[i].exitCode == 0
  }

  /** The number of results after the last success. */
  ghost function FailingSuffix(history: seq<ProbeResult>): (n: nat)
    requires EverSucceeded(history)
    ensures n < |history| && history[|history| - 1 - n].exitCode == 0
    ensures forall i :: |history| - n <= i < |history| ==> history[i].exitCode != 0
  {
    if history[|history| - 1].IsSuccess() then 0
    else 1 + FailingSuffix(history[..|history| - 1])
  }

  /** How many results began before the start or once the start period was over. */
  function Outside(s: ProbeSettings, startedAt: int, history: seq<ProbeResult>): (n: nat)
    ensures n <= |history|
  {
    if history == [] then 0
    else
      var start := history[|history| - 1].start;
      Outside(s, startedAt, history[..|history| - 1])
      + (if start < startedAt || start >= startedAt + s.startPeriod then 1 else 0)
  }

  /** The streak of a history without a success: failures begun outside the
      start period, until there are `retries` of them, then every failure. */
  ghost function EarlyStreak(s: ProbeSettings, startedAt: int, history: seq<ProbeResult>): nat
  {
    if Outside(s, startedAt, history) < s.retries then Outside(s, startedAt, history)
    else
      var k := Crossing(s, startedAt, history);
      s.retries + (|history| - k)
  }

  /** The length of the shortest prefix with `retries` failures outside. */
  ghost function Crossing(s: ProbeSettings, startedAt: int, history: seq<ProbeResult>): (k: nat)
    requires Outside(s, startedAt, history) >= s.retries
    ensures k <= |history|
    ensures Outside(s, startedAt, history[..k]) == s.retries
    ensures forall j :: 0 <= j < k ==> Outside(s, startedAt, history[..j]) < s.retries
  {
    if history == [] then 0
    else
      var init := history[..|history| - 1];
      if Outside(s, startedAt, init) >= s.retries then
        var k := Crossing(s, startedAt, init);
        assert init[..k] == history[..k];
        assert forall j :: 0 <= j < k ==> init[..j] == history[..j];
        k
      else
        assert history[..|history|] == history;
        OutsideMonotone(s, startedAt, init);
        assert forall j :: 0 <= j < |history| ==> init[..j] == history[..j];
        |history|
  }

  lemma OutsideMonotone(s: ProbeSettings, startedAt: int, history: seq<ProbeResult>)
    ensures forall j :: 0 <= j <= |history| ==>
              Outside(s, startedAt, history[..j]) <= Outside(s, startedAt, history)
  {
    if history == [] {
    } else {
      var init := history[..|history| - 1];
      OutsideMonotone(s, startedAt, init);
      forall j | 0 <= j <= |history|
        ensures Outside(s, startedAt, history[..j]) <= Outside(s, startedAt, history)
      {
        if j == |history| {
          assert history[..j] == history;
        } else {
          assert history[..j] == init[..j];
        }
      }
    }
  }

  ghost function Streak(s: ProbeSettings, startedAt: int, history: seq<ProbeResult>): nat
  {
    if EverSucceeded(history) then FailingSuffix(history) else EarlyStreak(s, startedAt, history)
  }

  /** The verdict as a function of the streak and of whether a probe ever passed. */
  ghost function Verdict(s: ProbeSettings, startedAt: int, history: seq<ProbeResult>): HealthStatus
  {
    if Streak(s, startedAt, history) >= s.retries then Unhealthy
    else if EverSucceeded(history) then Healthy
    else Starting
  }

  /** The fold equals its closed form for every history.  The streak is only
      cut off at the largest 32-bit number, which never changes the verdict. */
  lemma {:induction false} ClosedForm(s: ProbeSettings, startedAt: int, history: seq<ProbeResult>)
    requires s.Valid()
    ensures var h := Fold(s, startedAt, history);
            && h.failingStreak == Min(Streak(s, startedAt, history), 0xFFFF_FFFF)
            && h.status == Verdict(s, startedAt, history)
            && h.log == Tail(history, 5)
    decreases |history|
  {
    FoldKeepsTail(s, startedAt, history);
    if history == [] {
      assert Streak(s, startedAt, history) == 0;
    } else {
      ClosedForm(s, startedAt, history[..|history| - 1]);
      StreakStep(s, startedAt, history);
    }
  }

  /** How the streak moves by one more result. */
  lemma StreakStep(s: ProbeSettings, startedAt: int, history: seq<ProbeResult>)
    requires s.Valid() && history != []
    ensures var init, last := history[..|history| - 1], history[|history| - 1];
            var before := Streak(s, startedAt, init);
            && (EverSucceeded(history) <==> EverSucceeded(init) || last.IsSuccess())
            && Streak(s, startedAt, history) ==
                 if last.IsSuccess() then 0
                 else if !EverSucceeded(init) && before < s.retries && startedAt <= last.start < startedAt + s.startPeriod then before
                 else before + 1
  {
    var init, last := history[..|history| - 1], history[|history| - 1];
    assert forall i :: 0 <= i < |init| ==> init[i] == history[i];
    if last.IsSuccess() {
      assert EverSucceeded(history);
    } else if EverSucceeded(init) {
      var i :| 0 <= i < |init| && init[i].exitCode == 0;
      assert history[i].exitCode == 0;
    } else {
      assert !EverSucceeded(history);
      EarlyStreakStep(s, startedAt, history);
    }
  }

  lemma {:induction false} FoldKeepsTail(s: ProbeSettings, startedAt: int, history: seq<ProbeResult>)
    ensures Fold(s, startedAt, history).log == Tail(history, MAX_LOG_ENTRIES)
    decreases |history|
  {
    if history == [] {
    } else {
      var init, last := history[..|history| - 1], history[|history| - 1];
      FoldKeepsTail(s, startedAt, init);
      assert Fold(s, startedAt, history).log == Tail(Fold(s, startedAt, init).log + [last], MAX_LOG_ENTRIES);
      TailStep(init, last, MAX_LOG_ENTRIES);
      assert history == init + [last];
    }
  }

  lemma TailStep<A>(xs: seq<A>, x: A, n: nat)
    ensures Tail(Tail(xs, n) + [x], n) == Tail(xs + [x], n)
  {
  }

  /** How the early streak grows by one more failure. */
  lemma EarlyStreakStep(s: ProbeSettings, startedAt: int, history: seq<ProbeResult>)
    requires s.Valid() && history != []
    ensures var init, last := history[..|history| - 1], history[|history| - 1];
            var before := EarlyStreak(s, startedAt, init);
            EarlyStreak(s, startedAt, history)
              == if before < s.retries && startedAt <= last.start < startedAt + s.startPeriod then before else before + 1
  {
    var init := history[..|history| - 1];
    if Outside(s, startedAt, init) >= s.retries {
      assert Crossing(s, startedAt, history) == Crossing(s, startedAt, init);
    } else if Outside(s, startedAt, history) >= s.retries {
      assert Crossing(s, startedAt, history) == |history|;
    }
  }

  /** Failures within the start period do not count: while every probe fails and
      began there, the container is starting and its streak is 0. */
  lemma StartPeriodForgives(s: ProbeSettings, startedAt: int, history: seq<ProbeResult>)
    requires s.Valid()
    requires forall i :: 0 <= i < |history| ==>
               !history[i].IsSuccess() && startedAt <= history[i].start < startedAt + s.startPeriod
    ensures Fold(s, startedAt, history).status == Starting && Fold(s, startedAt, history).failingStreak == 0
  {
    ClosedForm(s, startedAt, history);
    NoneOutside(s, startedAt, history);
  }

  lemma {:induction false} NoneOutside(s: ProbeSettings, startedAt: int, history: seq<ProbeResult>)
    requires forall i :: 0 <= i < |history| ==> startedAt <= history[i].start < startedAt + s.startPeriod
    ensures Outside(s, startedAt, history) == 0
    decreases |history|
  {
    if history != [] {
      NoneOutside(s, startedAt, history[..|history| - 1]);
    }
  }

  /** Failures outside it do: a container none of whose probes passed is unhealthy
      exactly once `retries` of them began before its start or after the period. */
  lemma LateFailuresCount(s: ProbeSettings, startedAt: int, history: seq<ProbeResult>)
    requires s.Valid() && !EverSucceeded(history)
    ensures Fold(s, startedAt, history).status == Unhealthy <==> Outside(s, startedAt, history) >= s.retries
  {
    ClosedForm(s, startedAt, history);
  }

  /** A container is healthy only if one of its probes exited 0. */
  lemma HealthyMeansAProbePassed(s: ProbeSettings, startedAt: int, history: seq<ProbeResult>)
    requires s.Valid() && Fold(s, startedAt, history).status == Healthy
    ensures EverSucceeded(history)
  {
    ClosedForm(s, startedAt, history);
  }

  // ---- The registry and the prober loop ------------------------------------

  class HealthRegistry {
    var tasks: map<string, TaskHealth>

    constructor ()
      ensures tasks == map[]
    {
      tasks := map[];
    }

    method Set(taskId: string, health: TaskHealth)
      modifies this
      ensures tasks == old(tasks)[taskId := health]
    {
      tasks := tasks[taskId := health];
    }
  }

  /** One turn of the prober loop as the environment plays it: whether a stop
      arrives during the delay, what the probe would answer, and whether a stop
      arrives while it runs. */
  datatype Turn = Turn(stopBefore: bool, result: ProbeResult, stopDuring: bool)

  /** The results that count: those of the turns before the first stop. */
  function Recorded(turns: seq<Turn>): seq<ProbeResult>
  {
    if turns == [] || turns[0].stopBefore || turns[0].stopDuring then []
    else [turns[0].result] + Recorded(turns[1..])
  }

  /** A stop that arrives while a probe runs discards its result, and nothing is
      recorded after the first stop. */
  lemma {:induction false} RecordedExactly(turns: seq<Turn>)
    ensures var n := |Recorded(turns)|;
            && n <= |turns| && (n < |turns| ==> turns[n].stopBefore || turns[n].stopDuring)
            && forall i :: 0 <= i < n ==>
                 Recorded(turns)[i] == turns[i].result && !turns[i].stopBefore && !turns[i].stopDuring
    decreases |turns|
  {
    if turns != [] {
      RecordedExactly(turns[1..]);
    }
  }

  /** `run_prober`, played against `turns`.  When it ends, and at every head of
      its loop, the registry entry and the value of the watch channel are the
      fold of exactly the results recorded; no other entry is touched. */
  method RunProber(taskId: string, settings: ProbeSettings, startedAt: int, registry: HealthRegistry,
                   turns: seq<Turn>)
    returns (watch: HealthStatus)
    modifies registry
    ensures registry.tasks == old(registry.tasks)[taskId := Fold(settings, startedAt, Recorded(turns))]
    ensures watch == Fold(settings, startedAt, Recorded(turns)).status
  {
    var tracker := new HealthTracker(settings, startedAt);
    registry.Set(taskId, tracker.health);
    watch := Starting;
    var i := 0;
    while i < |turns|
      invariant 0 <= i <= |turns|
      invariant fresh(tracker) && tracker.Valid()
      invariant tracker.settings == settings && tracker.startedAt == startedAt
      invariant tracker.history + Recorded(turns[i..]) == Recorded(turns)
      invariant registry.tasks == old(registry.tasks)[taskId := tracker.health]
      invariant watch == tracker.health.status
    {
      assert turns[i..][1..] == turns[i + 1..];
      if turns[i].stopBefore { break; }
      if turns[i].stopDuring { break; }
      var _ := tracker.Record(turns[i].result);
      registry.Set(taskId, tracker.health);
      watch := tracker.health.status;
      i := i + 1;
    }
    assert tracker.history == Recorded(turns);
  }
}
