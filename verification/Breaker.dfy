/**
 The circuit breaker (`internal/circuit/breaker.go`) with calls that do not overlap.

 `Breaker` is the object as the program runs it, one method per lock section plus `Call`.  The
 functions before it give every lock section its meaning; they are shared with the interleaved
 model in `BreakerInterleaving`.
 */
module CircuitBreaker {

  datatype State = Closed | Open | HalfOpen

  datatype Config = Config(maxFailures: int, timeout: int, maxRequests: int)

  const DEFAULT_MAX_FAILURES := 5
  const DEFAULT_TIMEOUT := 30_000_000_000

  /** What `New` does to its argument: `maxRequests` is left alone, even when it is 0. */
  function Normalized(c: Config): Config {
    c.(maxFailures := if c.maxFailures == 0 then DEFAULT_MAX_FAILURES else c.maxFailures,
       timeout := if c.timeout == 0 then DEFAULT_TIMEOUT else c.timeout)
  }

  /** The mutable fields. */
  datatype Core = Core(state: State, failures: int, nextTry: int, halfOpenRequests: int)

  const INITIAL := Core(Closed, 0, 0, 0)

  // ---------- the lock sections ----------

  function ToHalfOpen(c: Core): Core {
    if c.state.Open? then c.(state := HalfOpen, halfOpenRequests := 0) else c
  }

  predicate Refuses(cfg: Config, c: Core) {
    c.state.HalfOpen? && c.halfOpenRequests >= cfg.maxRequests
  }

  function Admitted(c: Core): Core {
    if c.state.HalfOpen? then c.(halfOpenRequests := c.halfOpenRequests + 1) else c
  }

  function OnSuccess(c: Core): Core {
    c.(failures := 0, state := if c.state.HalfOpen? then Closed else c.state)
  }

  function OnFailure(cfg: Config, c: Core, now: int): Core {
    var counted := c.(failures := c.failures + 1);
    if counted.failures >= cfg.maxFailures
    then counted.(state := Open, nextTry := now + cfg.timeout)
    else counted
  }

  // ---------- one undisturbed call ----------

  /** `at` is the clock when the call enters, `ok` what the protected function returns, `done` the clock after it. */
  datatype Attempt = Attempt(at: int, ok: bool, done: int)

  predicate Blocked(c: Core, at: int) { c.state.Open? && at < c.nextTry }

  predicate Executes(cfg: Config, c: Core, at: int) {
    !Blocked(c, at) && !Refuses(cfg, ToHalfOpen(c))
  }

  function Called(cfg: Config, c: Core, a: Attempt): Core {
    if Blocked(c, a.at) then c
    else if Refuses(cfg, ToHalfOpen(c)) then ToHalfOpen(c)
    else
      var running := Admitted(ToHalfOpen(c));
      if a.ok then OnSuccess(running) else OnFailure(cfg, running, a.done)
  }

  datatype Outcome = ErrCircuitOpen | Returned(ok: bool)

  class Breaker {
    const cfg: Config
    var state: State
    var failures: int
    var nextTry: int
    var halfOpenRequests: int

    function View(): Core
      reads this
    {
      Core(state, failures, nextTry, halfOpenRequests)
    }

    constructor (config: Config)
      ensures cfg == Normalized(config) && View() == INITIAL
      ensures cfg.maxFailures == if config.maxFailures == 0 then 5 else config.maxFailures
      ensures cfg.timeout == if config.timeout == 0 then 30_000_000_000 else config.timeout
      ensures cfg.maxRequests == config.maxRequests && state == Closed
    {
      var maxFailures, timeout := config.maxFailures, config.timeout;
      if maxFailures == 0 { maxFailures := 5; }
      if timeout == 0 { timeout := 30 * 1_000_000_000; }
      cfg := Config(maxFailures, timeout, config.maxRequests);
      state, failures, nextTry, halfOpenRequests := Closed, 0, 0, 0;
    }

    method TryHalfOpen()
      modifies this
      ensures View() == ToHalfOpen(old(View()))
    {
      if state == Open {
        state := HalfOpen;
        halfOpenRequests := 0;
      }
    }

    method Gate() returns (admitted: bool)
      modifies this
      ensures admitted == !Refuses(cfg, old(View()))
      ensures View() == if admitted then Admitted(old(View())) else old(View())
    {
      if state == HalfOpen {
        if halfOpenRequests >= cfg.maxRequests {
          return false;
        }
        halfOpenRequests := halfOpenRequests + 1;
      }
      return true;
    }

    method Succeeded()
      modifies this
      ensures View() == OnSuccess(old(View()))
    {
      failures := 0;
      if state == HalfOpen {
        state := Closed;
      }
    }

    method Failed(now: int)
      modifies this
      ensures View() == OnFailure(cfg, old(View()), now)
    {
      failures := failures + 1;
      if failures >= cfg.maxFailures {
        state := Open;
        nextTry := now + cfg.timeout;
      }
    }

    method Call(a: Attempt) returns (r: Outcome)
      modifies this
      ensures r == if Executes(cfg, old(View()), a.at) then Returned(a.ok) else ErrCircuitOpen
      ensures View() == Called(cfg, old(View()), a)
    {
      var seen := state;
      if seen == Open {
        if a.at < nextTry {
          return ErrCircuitOpen;
        }
        TryHalfOpen();
      }
      var admitted := Gate();
      if !admitted {
        return ErrCircuitOpen;
      }
      if a.ok {
        Succeeded();
      } else {
        Failed(a.done);
      }
      return Returned(a.ok);
    }
  }

  // ---------- runs of undisturbed calls against their history ----------

  function After(cfg: Config, run: seq<Attempt>): Core {
    if run == [] then INITIAL
    else Called(cfg, After(cfg, run[..|run| - 1]), run[|run| - 1])
  }

  /** The attempts that did run the protected function. */
  function History(cfg: Config, run: seq<Attempt>): seq<Attempt> {
    if run == [] then [] else
    var before, a := run[..|run| - 1], run[|run| - 1];
    History(cfg, before) + if Executes(cfg, After(cfg, before), a.at) then [a] else []
  }

  /** Length of the unbroken run of failures at the end of a history. */
  function TrailingFailures(h: seq<Attempt>): nat {
    if h == [] || h[|h| - 1].ok then 0 else 1 + TrailingFailures(h[..|h| - 1])
  }

  /** `maxFailures` as it takes effect: one failure is always needed, and always enough when it is not positive. */
  function Threshold(cfg: Config): nat {
    if cfg.maxFailures < 1 then 1 else cfg.maxFailures
  }

  ghost predicate Tells(cfg: Config, c: Core, h: seq<Attempt>) {
    && c.failures == TrailingFailures(h)
    && c.state == (if TrailingFailures(h) < Threshold(cfg) then Closed
                   else if cfg.maxRequests >= 1 || c.state.Open? then Open else HalfOpen)
    && (c.state.Open? ==> h != [] && c.nextTry == h[|h| - 1].done + cfg.timeout)
    && (c.state.HalfOpen? ==> c.halfOpenRequests == 0)
  }

  lemma {:induction false} HistoryTold(cfg: Config, run: seq<Attempt>)
    ensures Tells(cfg, After(cfg, run), History(cfg, run))
    decreases run
  {
    if run != [] {
      var before, a := run[..|run| - 1], run[|run| - 1];
      HistoryTold(cfg, before);
      var c, h := After(cfg, before), History(cfg, before);
      if Executes(cfg, c, a.at) {
        assert History(cfg, run) == h + [a];
        assert (h + [a])[..|h|] == h;
      } else {
        assert History(cfg, run) == h;
      }
    }
  }

  /**
   The breaker refines its history: whether the next call runs is decided by the trailing failures
   and the time of the last one alone.  When `maxRequests` is not positive the breaker never
   recovers; when it is, callers never find it half-open.
   */
  lemma CallRunsIffHistoryAllows(cfg: Config, run: seq<Attempt>, at: int)
    ensures var h := History(cfg, run);
            Executes(cfg, After(cfg, run), at) <==>
              || TrailingFailures(h) < Threshold(cfg)
              || (cfg.maxRequests >= 1 && at >= h[|h| - 1].done + cfg.timeout)
    ensures cfg.maxRequests >= 1 ==> !After(cfg, run).state.HalfOpen?
    ensures After(cfg, run).failures == TrailingFailures(History(cfg, run))
  {
    HistoryTold(cfg, run);
  }

  /** Calls do not overlap and the clock does not run backwards. */
  ghost predicate Sequential(run: seq<Attempt>) {
    && (forall i :: 0 <= i < |run| ==> run[i].at <= run[i].done)
    && (forall i, j :: 0 <= i < j < |run| ==> run[i].done <= run[j].at)
  }

  predicate ExecutesAt(cfg: Config, run: seq<Attempt>, i: nat)
    requires i < |run|
  {
    Executes(cfg, After(cfg, run[..i]), run[i].at)
  }

  ghost predicate AllExecutedFail(cfg: Config, run: seq<Attempt>, from: nat) {
    forall i {:trigger ExecutesAt(cfg, run, i)} :: from <= i < |run| && ExecutesAt(cfg, run, i) ==> !run[i].ok
  }

  lemma TrailingExtends(h: seq<Attempt>, a: Attempt)
    ensures TrailingFailures(h + [a]) == if a.ok then 0 else 1 + TrailingFailures(h)
  {
    assert (h + [a])[..|h|] == h;
  }

  /** `k` timeouts on end. */
  function Waits(k: int, timeout: int): int
    decreases k
  {
    if k <= 0 then 0 else timeout + Waits(k - 1, timeout)
  }

  lemma {:induction false} WaitsIsProduct(k: int, timeout: int)
    requires timeout >= 0
    ensures k * timeout <= Waits(k, timeout)
    decreases k
  {
    if k > 0 {
      WaitsIsProduct(k - 1, timeout);
    }
  }

  /** `n` failed executions since `start` leave the last of them late enough, given attempts up to `last`. */
  ghost predicate Spaced(cfg: Config, h: seq<Attempt>, n: int, start: int, last: Attempt) {
    && 0 <= n <= TrailingFailures(h)
    && (n > 0 ==>
          && start <= h[|h| - 1].at <= h[|h| - 1].done <= last.done
          && h[|h| - 1].at <= last.at
          && Waits(n - Threshold(cfg), cfg.timeout) <= h[|h| - 1].at - start)
  }

  lemma SpacedByFailure(cfg: Config, h: seq<Attempt>, n: nat, start: int, last: Attempt, a: Attempt)
    requires cfg.timeout >= 0 && Spaced(cfg, h, n, start, last) && start <= a.at <= a.done && !a.ok
    requires TrailingFailures(h) < Threshold(cfg) || (h != [] && a.at >= h[|h| - 1].done + cfg.timeout)
    ensures Spaced(cfg, h + [a], n + 1, start, a)
  {
    TrailingExtends(h, a);
  }

  lemma HistoryGrows(cfg: Config, before: seq<Attempt>, a: Attempt)
    ensures History(cfg, before + [a])
         == if Executes(cfg, After(cfg, before), a.at) then History(cfg, before) + [a] else History(cfg, before)
  {
    assert (before + [a])[..|before|] == before;
  }

  /** What one more attempt can do to the history when every execution fails. */
  ghost predicate GrowsByFailure(cfg: Config, h: seq<Attempt>, h': seq<Attempt>, a: Attempt) {
    h' == h ||
    (&& h' == h + [a] && !a.ok
     && (TrailingFailures(h) < Threshold(cfg) || (h != [] && a.at >= h[|h| - 1].done + cfg.timeout)))
  }

  lemma AttemptGrowsByFailure(cfg: Config, before: seq<Attempt>, a: Attempt)
    requires Executes(cfg, After(cfg, before), a.at) ==> !a.ok
    ensures GrowsByFailure(cfg, History(cfg, before), History(cfg, before + [a]), a)
  {
    HistoryGrows(cfg, before, a);
    CallRunsIffHistoryAllows(cfg, before, a.at);
  }

  lemma SpacedByAttempt(cfg: Config, h: seq<Attempt>, h': seq<Attempt>, a: Attempt,
                        n: nat, start: int, last: Attempt)
    requires cfg.timeout >= 0 && GrowsByFailure(cfg, h, h', a) && Spaced(cfg, h, n, start, last)
    requires start <= a.at <= a.done && last.at <= a.at && last.done <= a.done
    ensures Spaced(cfg, h', n + |h'| - |h|, start, a)
  {
    if h' != h {
      SpacedByFailure(cfg, h, n, start, last, a);
      assert n + |h'| - |h| == n + 1;
    }
  }

  lemma InTurn(run: seq<Attempt>, i: nat, j: nat)
    requires Sequential(run) && i <= j < |run|
    ensures run[i].at <= run[j].at <= run[j].done && run[i].done <= run[j].done
  {
    assert run[i].at <= run[i].done;
  }

  lemma {:induction false} FailuresSpaced(cfg: Config, run: seq<Attempt>, from: nat, k: nat) returns (n: nat)
    requires cfg.timeout >= 0 && Sequential(run) && from < k <= |run| && AllExecutedFail(cfg, run, from)
    ensures n == |History(cfg, run[..k])| - |History(cfg, run[..from])|
    ensures Spaced(cfg, History(cfg, run[..k]), n, run[from].at, run[k - 1])
    decreases k
  {
    var before, a := run[..k - 1], run[k - 1];
    var h, h' := History(cfg, before), History(cfg, run[..k]);
    assert run[..k] == before + [a];
    assert ExecutesAt(cfg, run, k - 1) ==> !a.ok;
    AttemptGrowsByFailure(cfg, before, a);
    var n0, last := 0, a;
    InTurn(run, from, k - 1);
    if from < k - 1 {
      n0 := FailuresSpaced(cfg, run, from, k - 1);
      last := run[k - 2];
      InTurn(run, k - 2, k - 1);
    }
    SpacedByAttempt(cfg, h, h', a, n0, run[from].at, last);
    n := n0 + |h'| - |h|;
  }

  /**
   A dependency that keeps failing is bothered at most `Threshold` times plus once per timeout:
   over any stretch of a run in which every executed call fails.
   */
  lemma FailingDependencyBound(cfg: Config, run: seq<Attempt>, from: nat)
    requires cfg.timeout >= 0 && Sequential(run) && from < |run| && AllExecutedFail(cfg, run, from)
    ensures var executed := |History(cfg, run)| - |History(cfg, run[..from])|;
            executed * cfg.timeout <= Threshold(cfg) * cfg.timeout + (run[|run| - 1].at - run[from].at)
  {
    var executed := FailuresSpaced(cfg, run, from, |run|);
    assert run[..|run|] == run;
    WaitsIsProduct(executed - Threshold(cfg), cfg.timeout);
    assert executed * cfg.timeout == (executed - Threshold(cfg)) * cfg.timeout + Threshold(cfg) * cfg.timeout;
    assert run[from].at <= run[|run| - 1].at by {
      if from < |run| - 1 {
        assert run[from].done <= run[|run| - 1].at;
      }
    }
  }
}
