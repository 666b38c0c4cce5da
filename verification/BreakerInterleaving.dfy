/**
 The circuit breaker (`internal/circuit/breaker.go`) with any number of calls in flight.

 A call is a small program whose atomic steps are the lock sections of `Call`, the unlocked read of
 `nextTry` being a step of its own.  A run is any sequence of enabled steps of any calls.
 */
module BreakerInterleaving {
  import opened CircuitBreaker

  /** Where a call in flight stands. */
  datatype Stage =
    | SawOpen   // found the state Open, has not looked at nextTry yet
    | Expired   // found nextTry in the past, has not re-taken the lock yet
    | AtGate    // about to be admitted or refused
    | Running   // the protected function is executing

  datatype System = System(core: Core, calls: map<nat, Stage>, clock: int)

  datatype Step =
    | Enter(id: nat)
    | CheckExpiry(id: nat, now: int)
    | EnterHalfOpen(id: nat)
    | PassGate(id: nat)
    | Succeed(id: nat)
    | Fail(id: nat, now: int)

  const START := System(INITIAL, map[], 0)

  predicate At(s: System, id: nat, stage: Stage) { id in s.calls && s.calls[id] == stage }

  predicate Enabled(s: System, step: Step) {
    match step
    case Enter(id) => id !in s.calls
    case CheckExpiry(id, now) => At(s, id, SawOpen) && s.clock <= now
    case EnterHalfOpen(id) => At(s, id, Expired)
    case PassGate(id) => At(s, id, AtGate)
    case Succeed(id) => At(s, id, Running)
    case Fail(id, now) => At(s, id, Running) && s.clock <= now
  }

  function Next(cfg: Config, s: System, step: Step): System {
    match step
    case Enter(id) =>
      s.(calls := s.calls[id := if s.core.state.Open? then SawOpen else AtGate])
    case CheckExpiry(id, now) =>
      s.(calls := if now < s.core.nextTry then s.calls - {id} else s.calls[id := Expired], clock := now)
    case EnterHalfOpen(id) =>
      s.(core := ToHalfOpen(s.core), calls := s.calls[id := AtGate])
    case PassGate(id) =>
      if Refuses(cfg, s.core) then s.(calls := s.calls - {id})
      else s.(core := Admitted(s.core), calls := s.calls[id := Running])
    case Succeed(id) =>
      s.(core := OnSuccess(s.core), calls := s.calls - {id})
    case Fail(id, now) =>
      s.(core := OnFailure(cfg, s.core, now), calls := s.calls - {id}, clock := now)
  }

  function End(cfg: Config, run: seq<Step>): System {
    if run == [] then START else Next(cfg, End(cfg, run[..|run| - 1]), run[|run| - 1])
  }

  /** Every step of the run was enabled when it was taken. */
  predicate Legal(cfg: Config, run: seq<Step>) {
    run != [] ==>
      Legal(cfg, run[..|run| - 1]) && Enabled(End(cfg, run[..|run| - 1]), run[|run| - 1])
  }

  // ---------- half-open episodes, read off the run ----------

  /** The step that opens a new episode. */
  predicate StartsEpisode(s: System, step: Step) { step.EnterHalfOpen? && s.core.state.Open? }

  predicate AdmitsProbe(cfg: Config, s: System, step: Step) {
    step.PassGate? && s.core.state.HalfOpen? && !Refuses(cfg, s.core)
  }

  function CountProbe(cfg: Config, s: System, step: Step, probes: nat): nat {
    if StartsEpisode(s, step) then 0 else probes + if AdmitsProbe(cfg, s, step) then 1 else 0
  }

  function TrackProbes(cfg: Config, s: System, step: Step, live: set<nat>): set<nat> {
    if StartsEpisode(s, step) then {}
    else if AdmitsProbe(cfg, s, step) then live + {step.id}
    else if step.Succeed? || step.Fail? then live - {step.id}
    else live
  }

  /** How many calls were admitted as probes since the latest episode began. */
  function Probes(cfg: Config, run: seq<Step>): nat {
    if run == [] then 0 else
    var before := run[..|run| - 1];
    CountProbe(cfg, End(cfg, before), run[|run| - 1], Probes(cfg, before))
  }

  /** Those of them that are still running. */
  function LiveProbes(cfg: Config, run: seq<Step>): set<nat> {
    if run == [] then {} else
    var before := run[..|run| - 1];
    TrackProbes(cfg, End(cfg, before), run[|run| - 1], LiveProbes(cfg, before))
  }

  /** How the counters of the breaker relate to the probes of the current episode, `n` of which still run. */
  ghost predicate Tally(cfg: Config, c: Core, probes: nat, n: nat) {
    && 0 <= c.failures
    && (c.state.Closed? ==> c.failures < Threshold(cfg))
    && probes == c.halfOpenRequests
    && (probes > 0 ==> probes <= cfg.maxRequests)
    && n <= probes
    && (c.state.HalfOpen? ==> probes - n <= c.failures && (n < probes ==> c.failures < Threshold(cfg)))
  }

  ghost predicate AllRunning(s: System, live: set<nat>) {
    forall id :: id in live ==> At(s, id, Running)
  }

  ghost predicate Inv(cfg: Config, s: System, probes: nat, live: set<nat>) {
    Tally(cfg, s.core, probes, |live|) && AllRunning(s, live)
  }

  lemma FinishedProbe(live: set<nat>, id: nat)
    ensures |live - {id}| == if id in live then |live| - 1 else |live|
  {
    if id in live {
      assert live == (live - {id}) + {id};
    } else {
      assert live - {id} == live;
    }
  }

  lemma AllRunningStep(cfg: Config, s: System, step: Step, live: set<nat>)
    requires AllRunning(s, live) && Enabled(s, step)
    ensures AllRunning(Next(cfg, s, step), TrackProbes(cfg, s, step, live))
    ensures step.PassGate? ==> step.id !in live
  {}

  lemma TallyStep(cfg: Config, s: System, step: Step, probes: nat, n: nat, n': nat)
    requires Tally(cfg, s.core, probes, n)
    requires if StartsEpisode(s, step) then n' == 0
             else if AdmitsProbe(cfg, s, step) then n' == n + 1
             else if step.Succeed? || step.Fail? then n' == n || n' == n - 1
             else n' == n
    ensures Tally(cfg, Next(cfg, s, step).core, CountProbe(cfg, s, step, probes), n')
  {}

  lemma InvStep(cfg: Config, s: System, step: Step, probes: nat, live: set<nat>)
    requires Inv(cfg, s, probes, live) && Enabled(s, step)
    ensures Inv(cfg, Next(cfg, s, step), CountProbe(cfg, s, step, probes), TrackProbes(cfg, s, step, live))
  {
    AllRunningStep(cfg, s, step, live);
    FinishedProbe(live, step.id);
    TallyStep(cfg, s, step, probes, |live|, |TrackProbes(cfg, s, step, live)|);
  }

  lemma {:induction false} InvHolds(cfg: Config, run: seq<Step>)
    requires Legal(cfg, run)
    ensures Inv(cfg, End(cfg, run), Probes(cfg, run), LiveProbes(cfg, run))
    decreases run
  {
    if run != [] {
      var before := run[..|run| - 1];
      InvHolds(cfg, before);
      InvStep(cfg, End(cfg, before), run[|run| - 1], Probes(cfg, before), LiveProbes(cfg, before));
    }
  }

  /**
   Safety of every interleaving: a closed breaker is below its failure limit, no step leads from
   Open straight to Closed, and the probes admitted in one half-open episode are exactly what
   `halfOpenRequests` counts and never more than allowed.
   */
  lemma EveryInterleavingIsSafe(cfg: Config, run: seq<Step>, step: Step)
    requires Legal(cfg, run) && Enabled(End(cfg, run), step)
    ensures End(cfg, run).core.state.Closed? ==> End(cfg, run).core.failures < Threshold(cfg)
    ensures !(End(cfg, run).core.state.Open? && Next(cfg, End(cfg, run), step).core.state.Closed?)
    ensures Probes(cfg, run) == End(cfg, run).core.halfOpenRequests
    ensures Probes(cfg, run) <= if cfg.maxRequests < 0 then 0 else cfg.maxRequests
  {
    InvHolds(cfg, run);
  }

  // ---------- every call comes to an end ----------

  /** How many steps of its own a call has left at most. */
  function Remaining(s: System, id: nat): nat {
    if id !in s.calls then 0 else
    match s.calls[id]
    case SawOpen => 4
    case Expired => 3
    case AtGate => 2
    case Running => 1
  }

  /** A call in flight can always take its next step, whatever the others did to the breaker meanwhile … */
  lemma CallNeverStuck(s: System, id: nat) returns (step: Step)
    requires id in s.calls
    ensures step.id == id && !step.Enter? && Enabled(s, step)
  {
    match s.calls[id]
    case SawOpen => step := CheckExpiry(id, s.clock);
    case Expired => step := EnterHalfOpen(id);
    case AtGate => step := PassGate(id);
    case Running => step := Succeed(id);
  }

  /** … and every step it takes brings it closer to its end, while the steps of others do not move it. */
  lemma CallComesToAnEnd(cfg: Config, s: System, step: Step, id: nat)
    requires Enabled(s, step)
    ensures id == step.id && !step.Enter? ==> Remaining(Next(cfg, s, step), id) < Remaining(s, id)
    ensures id != step.id ==> Remaining(Next(cfg, s, step), id) == Remaining(s, id)
    ensures step.Enter? ==> Remaining(Next(cfg, s, step), step.id) == if s.core.state.Open? then 4 else 2
  {}

  // ---------- when an open breaker may be tried again ----------

  /** The failure reported by this step reaches the limit. */
  predicate Trips(cfg: Config, s: System, step: Step) { step.Fail? && s.core.failures + 1 >= cfg.maxFailures }

  datatype Trip = Never | On(time: int)

  /** When the limit was last reached, if ever. */
  function LastTrip(cfg: Config, run: seq<Step>): Trip {
    if run == [] then Never else
    var before, step := run[..|run| - 1], run[|run| - 1];
    if Trips(cfg, End(cfg, before), step) then On(step.now) else LastTrip(cfg, before)
  }

  /**
   Under every interleaving the time of the next try is a timeout after the last failure at the
   limit, also when that failure was a straggler's; and a breaker is never open without one.
   */
  lemma {:induction false} NextTryFollowsLastTrip(cfg: Config, run: seq<Step>)
    ensures var c, trip := End(cfg, run).core, LastTrip(cfg, run);
            && c.nextTry == (if trip.On? then trip.time + cfg.timeout else 0)
            && (!c.state.Closed? ==> trip.On?)
    decreases run
  {
    if run != [] {
      NextTryFollowsLastTrip(cfg, run[..|run| - 1]);
    }
  }

  // ---------- the half-open trap ----------

  /** Half-open, budget spent, and nobody running who could report back. */
  ghost predicate Trapped(cfg: Config, s: System) {
    && s.core.state.HalfOpen?
    && s.core.halfOpenRequests >= cfg.maxRequests
    && forall id :: id in s.calls ==> s.calls[id] != Running
  }

  /** Continue a system by further steps. */
  function Continue(cfg: Config, s: System, steps: seq<Step>): System {
    if steps == [] then s else Next(cfg, Continue(cfg, s, steps[..|steps| - 1]), steps[|steps| - 1])
  }

  ghost predicate LegalFrom(cfg: Config, s: System, steps: seq<Step>) {
    steps != [] ==>
      && LegalFrom(cfg, s, steps[..|steps| - 1])
      && Enabled(Continue(cfg, s, steps[..|steps| - 1]), steps[|steps| - 1])
  }

  /** There is no way out: whatever happens next, no call ever runs again. */
  lemma {:induction false} TrapIsForever(cfg: Config, s: System, steps: seq<Step>)
    requires Trapped(cfg, s) && LegalFrom(cfg, s, steps)
    ensures Trapped(cfg, Continue(cfg, s, steps))
    decreases steps
  {
    if steps != [] {
      TrapIsForever(cfg, s, steps[..|steps| - 1]);
    }
  }

  ghost predicate Reachable(cfg: Config, s: System) {
    exists run :: LeadsTo(cfg, run, s)
  }

  ghost predicate LeadsTo(cfg: Config, run: seq<Step>, s: System) {
    Legal(cfg, run) && End(cfg, run) == s
  }

  lemma Reach(cfg: Config, s: System, step: Step) returns (s': System)
    requires Reachable(cfg, s) && Enabled(s, step)
    ensures s' == Next(cfg, s, step) && Reachable(cfg, s')
  {
    var run :| LeadsTo(cfg, run, s);
    s' := Next(cfg, s, step);
    assert (run + [step])[..|run|] == run;
    assert LeadsTo(cfg, run + [step], s');
  }

  /** Call 1 enters, is admitted and fails. */
  lemma OneFailure(cfg: Config, s: System) returns (s': System)
    requires Reachable(cfg, s) && 1 !in s.calls && !s.core.state.Open? && !Refuses(cfg, s.core)
    ensures Reachable(cfg, s')
    ensures s' == s.(core := OnFailure(cfg, Admitted(s.core), s.clock))
  {
    s' := Reach(cfg, s, Enter(1));
    s' := Reach(cfg, s', PassGate(1));
    s' := Reach(cfg, s', Fail(1, s.clock));
    assert s'.calls == s.calls;
  }

  /** With call 0 in flight, enough failures open the breaker. */
  lemma {:induction false} FailUntilOpen(cfg: Config, s: System) returns (s': System)
    requires Reachable(cfg, s) && s.core.state.Closed? && 0 <= s.core.failures < Threshold(cfg)
    requires s.calls == map[0 := Running] && s.core.halfOpenRequests == 0
    ensures Reachable(cfg, s') && s'.core.state.Open? && s'.calls == s.calls
    decreases Threshold(cfg) - s.core.failures
  {
    s' := OneFailure(cfg, s);
    if s'.core.failures < cfg.maxFailures {
      s' := FailUntilOpen(cfg, s');
    }
  }

  /** In a half-open episode whose failure count was wiped, probes can fail without being noticed. */
  lemma {:induction false} SpendBudget(cfg: Config, s: System) returns (s': System)
    requires Reachable(cfg, s) && s.core.state.HalfOpen? && s.calls == map[2 := AtGate]
    requires 0 <= s.core.halfOpenRequests == s.core.failures
    requires cfg.maxRequests < Threshold(cfg)
    ensures Reachable(cfg, s') && Trapped(cfg, s')
    decreases cfg.maxRequests - s.core.halfOpenRequests
  {
    if Refuses(cfg, s.core) {
      s' := s;
    } else {
      s' := OneFailure(cfg, s);
      s' := SpendBudget(cfg, s');
    }
  }

  /** A late success wipes the failure count of a breaker that has meanwhile opened. */
  lemma WipedWhileOpen(cfg: Config) returns (s: System)
    ensures Reachable(cfg, s) && s.core.state.Open? && s.core.failures == 0 && s.calls == map[]
  {
    assert LeadsTo(cfg, [], START);
    s := Reach(cfg, START, Enter(0));
    s := Reach(cfg, s, PassGate(0));
    assert s.calls == map[0 := Running];
    s := FailUntilOpen(cfg, s);
    s := Reach(cfg, s, Succeed(0));
    assert s.calls == map[];
  }

  lemma TrapSprung(cfg: Config) returns (s: System)
    requires cfg.maxRequests < Threshold(cfg)
    ensures Reachable(cfg, s) && Trapped(cfg, s)
  {
    s := WipedWhileOpen(cfg);
    s := Reach(cfg, s, Enter(2));
    s := Reach(cfg, s, CheckExpiry(2, if s.clock < s.core.nextTry then s.core.nextTry else s.clock));
    s := Reach(cfg, s, EnterHalfOpen(2));
    assert s.calls == map[2 := AtGate];
    s := SpendBudget(cfg, s);
  }

  /** The trap can be reached exactly when fewer probes are allowed than failures are tolerated. */
  lemma TrapReachableIff(cfg: Config)
    ensures (exists s :: Reachable(cfg, s) && Trapped(cfg, s)) <==> cfg.maxRequests < Threshold(cfg)
  {
    if cfg.maxRequests < Threshold(cfg) {
      var s := TrapSprung(cfg);
    } else {
      forall s | Reachable(cfg, s)
        ensures !Trapped(cfg, s)
      {
        var run :| LeadsTo(cfg, run, s);
        InvHolds(cfg, run);
        assert LiveProbes(cfg, run) == {} ==> |LiveProbes(cfg, run)| == 0;
        assert Trapped(cfg, s) ==> forall id :: id !in LiveProbes(cfg, run);
        assert Trapped(cfg, s) ==> LiveProbes(cfg, run) == {};
      }
    }
  }

  // ---------- undisturbed calls are one interleaving among others ----------

  /** The steps call `id` takes up to the gate when nobody interferes. */
  function Approach(c: Core, id: nat, a: Attempt): seq<Step> {
    if !c.state.Open? then [Enter(id)]
    else if Blocked(c, a.at) then [Enter(id), CheckExpiry(id, a.at)]
    else [Enter(id), CheckExpiry(id, a.at), EnterHalfOpen(id)]
  }

  function Finish(id: nat, a: Attempt): Step { if a.ok then Succeed(id) else Fail(id, a.done) }

  function Alone(cfg: Config, c: Core, id: nat, a: Attempt): seq<Step> {
    if Blocked(c, a.at) then Approach(c, id, a)
    else if Executes(cfg, c, a.at) then Approach(c, id, a) + [PassGate(id)] + [Finish(id, a)]
    else Approach(c, id, a) + [PassGate(id)]
  }

  lemma ContinueStep(cfg: Config, s: System, steps: seq<Step>, step: Step)
    ensures Continue(cfg, s, steps + [step]) == Next(cfg, Continue(cfg, s, steps), step)
    ensures LegalFrom(cfg, s, steps + [step]) <==>
            LegalFrom(cfg, s, steps) && Enabled(Continue(cfg, s, steps), step)
  {
    assert (steps + [step])[..|steps|] == steps;
  }

  lemma ApproachTaken(cfg: Config, s: System, id: nat, a: Attempt)
    requires id !in s.calls && s.clock <= a.at
    ensures LegalFrom(cfg, s, Approach(s.core, id, a))
    ensures Continue(cfg, s, Approach(s.core, id, a)).clock <= a.at
    ensures var now := Continue(cfg, s, Approach(s.core, id, a));
            if Blocked(s.core, a.at) then now.core == s.core && now.calls == s.calls
            else now.core == ToHalfOpen(s.core) && now.calls == s.calls[id := AtGate]
  {
    ContinueStep(cfg, s, [], Enter(id));
    assert [] + [Enter(id)] == [Enter(id)];
    if s.core.state.Open? {
      var checked := [Enter(id)] + [CheckExpiry(id, a.at)];
      ContinueStep(cfg, s, [Enter(id)], CheckExpiry(id, a.at));
      if Blocked(s.core, a.at) {
        assert Approach(s.core, id, a) == checked;
      } else {
        ContinueStep(cfg, s, checked, EnterHalfOpen(id));
        assert Approach(s.core, id, a) == checked + [EnterHalfOpen(id)];
      }
    }
  }

  lemma GateTaken(cfg: Config, s: System, steps: seq<Step>, id: nat, a: Attempt)
    requires id !in s.calls && !Blocked(s.core, a.at) && a.at <= a.done && LegalFrom(cfg, s, steps)
    requires Continue(cfg, s, steps).core == ToHalfOpen(s.core) && Continue(cfg, s, steps).clock <= a.at
    requires Continue(cfg, s, steps).calls == s.calls[id := AtGate]
    ensures var all := if Executes(cfg, s.core, a.at) then steps + [PassGate(id)] + [Finish(id, a)]
                       else steps + [PassGate(id)];
            && LegalFrom(cfg, s, all)
            && Continue(cfg, s, all).core == Called(cfg, s.core, a)
            && Continue(cfg, s, all).calls == s.calls
  {
    var gate := steps + [PassGate(id)];
    ContinueStep(cfg, s, steps, PassGate(id));
    if Executes(cfg, s.core, a.at) {
      ContinueStep(cfg, s, gate, Finish(id, a));
      assert Continue(cfg, s, gate).calls == s.calls[id := Running];
      assert s.calls[id := Running] - {id} == s.calls;
    } else {
      assert s.calls[id := AtGate] - {id} == s.calls;
    }
  }

  /** The sequential model is the interleaved one with nobody else around. */
  lemma UndisturbedCallIsInterleaving(cfg: Config, s: System, id: nat, a: Attempt)
    requires id !in s.calls && s.clock <= a.at <= a.done
    ensures LegalFrom(cfg, s, Alone(cfg, s.core, id, a))
    ensures Continue(cfg, s, Alone(cfg, s.core, id, a)).core == Called(cfg, s.core, a)
    ensures Continue(cfg, s, Alone(cfg, s.core, id, a)).calls == s.calls
  {
    var steps := Approach(s.core, id, a);
    ApproachTaken(cfg, s, id, a);
    if !Blocked(s.core, a.at) {
      GateTaken(cfg, s, steps, id, a);
    }
  }
}
