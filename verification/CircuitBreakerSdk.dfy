/** The three-state circuit breaker: its counters, its transitions and its metrics. */
module CircuitBreakerSdk {
  import opened Events
  import opened Words

  datatype Mode = Closed | Open | HalfOpen

  datatype ConfigError = ZeroFailureThreshold | ZeroSuccessThreshold | ZeroHalfOpenMaxRequests | ZeroSlidingWindow

  datatype BreakerConfig = BreakerConfig(
    failureThreshold: nat,
    resetTimeout: nat,
    successThreshold: nat,
    halfOpenMaxRequests: nat,
    slidingWindowSize: nat)
  {
    /** The first setting that is 0, in the order the source checks them. */
    function Validate(): (error: Option<ConfigError>)
      ensures error == None <==>
              failureThreshold > 0 && successThreshold > 0 && halfOpenMaxRequests > 0 && slidingWindowSize > 0
      ensures error == Some(ZeroFailureThreshold) <==> failureThreshold == 0
      ensures error == Some(ZeroSuccessThreshold) <==> failureThreshold > 0 && successThreshold == 0
      ensures error == Some(ZeroHalfOpenMaxRequests) <==>
              failureThreshold > 0 && successThreshold > 0 && halfOpenMaxRequests == 0
    {
      if failureThreshold == 0 then Some(ZeroFailureThreshold)
      else if successThreshold == 0 then Some(ZeroSuccessThreshold)
      else if halfOpenMaxRequests == 0 then Some(ZeroHalfOpenMaxRequests)
      else if slidingWindowSize == 0 then Some(ZeroSlidingWindow)
      else None
    }

    predicate Fits() { failureThreshold < U32 && successThreshold < U32 && halfOpenMaxRequests < U32 }

    /** A configuration a breaker can be built from. */
    predicate Valid() { Validate() == None && Fits() }
  }

  datatype Metrics = Metrics(total: nat, successful: nat, failed: nat, rejected: nat, transitions: nat)

  datatype Breaker = Breaker(
    mode: Mode,
    failures: nat,
    successes: nat,
    halfOpenRequests: nat,
    lastChange: nat,
    metrics: Metrics)

  function New(now: nat): Breaker { Breaker(Closed, 0, 0, 0, now, Metrics(0, 0, 0, 0, 0)) }

  function Counted(b: Breaker): Breaker { b.(metrics := b.metrics.(transitions := b.metrics.transitions + 1)) }

  function ToOpen(b: Breaker, now: nat): Breaker {
    if b.mode == Open then b else Counted(b.(mode := Open, lastChange := now))
  }

  function ToHalfOpen(b: Breaker, now: nat): Breaker {
    if b.mode != Open then b
    else Counted(b.(mode := HalfOpen, halfOpenRequests := 0, successes := 0, lastChange := now))
  }

  function ToClosed(b: Breaker, now: nat): Breaker {
    if b.mode == Closed then b
    else Counted(b.(mode := Closed, failures := 0, successes := 0, halfOpenRequests := 0, lastChange := now))
  }

  function Reject(b: Breaker): Breaker { b.(metrics := b.metrics.(rejected := b.metrics.rejected + 1)) }

  function Allow(c: BreakerConfig, b: Breaker, now: nat): (Breaker, bool) {
    var asked := b.(metrics := b.metrics.(total := b.metrics.total + 1));
    match b.mode
    case Closed => (asked, true)
    case Open =>
      if Elapsed(b.lastChange, now) >= c.resetTimeout then (ToHalfOpen(asked, now), true) else (Reject(asked), false)
    case HalfOpen =>
      if b.halfOpenRequests < c.halfOpenMaxRequests
      then (asked.(halfOpenRequests := Increment(b.halfOpenRequests)), true)
      else (Reject(asked), false)
  }

  function Succeed(c: BreakerConfig, b: Breaker, now: nat): Breaker {
    var noted := b.(successes := Increment(b.successes),
                    metrics := b.metrics.(successful := b.metrics.successful + 1));
    match b.mode
    case Closed => noted.(failures := 0)
    case HalfOpen => if noted.successes >= c.successThreshold then ToClosed(noted, now) else noted
    case Open => noted
  }

  function Fail(c: BreakerConfig, b: Breaker, now: nat): Breaker {
    var noted := b.(failures := Increment(b.failures),
                    metrics := b.metrics.(failed := b.metrics.failed + 1));
    match b.mode
    case Closed => if noted.failures >= c.failureThreshold then ToOpen(noted, now) else noted
    case HalfOpen => ToOpen(noted, now)
    case Open => noted
  }

  function Reset(b: Breaker, now: nat): Breaker {
    b.(mode := Closed, failures := 0, successes := 0, halfOpenRequests := 0, lastChange := now)
  }

  datatype Outcome = CircuitOpen | OperationFailed | Completed

  /** One sequential `execute`: asked at `asked`, and if admitted the operation ends at `done`. */
  function Execute(c: BreakerConfig, b: Breaker, asked: nat, done: nat, succeeds: bool): (Breaker, Outcome) {
    var (admitted, allowed) := Allow(c, b, asked);
    if !allowed then (admitted, CircuitOpen)
    else if succeeds then (Succeed(c, admitted, done), Completed)
    else (Fail(c, admitted, done), OperationFailed)
  }

  class CircuitBreaker {
    const config: BreakerConfig
    var state: Mode
    var failureCount: nat
    var successCount: nat
    var halfOpenRequests: nat
    var lastStateChange: nat
    var metrics: Metrics

    ghost function View(): Breaker
      reads this
    {
      Breaker(state, failureCount, successCount, halfOpenRequests, lastStateChange, metrics)
    }

    constructor (config: BreakerConfig, now: nat)
      requires config.Valid()
      ensures this.config == config && View() == New(now)
    {
      this.config := config;
      state, failureCount, successCount, halfOpenRequests := Closed, 0, 0, 0;
      lastStateChange, metrics := now, Metrics(0, 0, 0, 0, 0);
    }

    /** `CircuitBreakerSdk::new`: an invalid configuration is refused with the first fault found. */
    static method Create(config: BreakerConfig, now: nat) returns (breaker: CircuitBreaker?, error: Option<ConfigError>)
      requires config.Fits()
      ensures error == config.Validate()
      ensures breaker == null <==> error.Some?
      ensures breaker != null ==> fresh(breaker) && breaker.config == config && breaker.View() == New(now)
    {
      error := config.Validate();
      if error.Some? {
        return null, error;
      }
      breaker := new CircuitBreaker(config, now);
    }

    method TransitionToOpen(now: nat)
      modifies this
      ensures View() == ToOpen(old(View()), now)
    {
      if state != Open {
        state := Open;
        lastStateChange := now;
        metrics := metrics.(transitions := metrics.transitions + 1);
      }
    }

    method TransitionToHalfOpen(now: nat)
      modifies this
      ensures View() == ToHalfOpen(old(View()), now)
    {
      if state == Open {
        state := HalfOpen;
        halfOpenRequests := 0;
        successCount := 0;
        lastStateChange := now;
        metrics := metrics.(transitions := metrics.transitions + 1);
      }
    }

    method TransitionToClosed(now: nat)
      modifies this
      ensures View() == ToClosed(old(View()), now)
    {
      if state != Closed {
        state := Closed;
        failureCount, successCount, halfOpenRequests := 0, 0, 0;
        lastStateChange := now;
        metrics := metrics.(transitions := metrics.transitions + 1);
      }
    }

    method RecordRejectedRequest()
      modifies this`metrics
      ensures View() == Reject(old(View()))
    {
      metrics := metrics.(rejected := metrics.rejected + 1);
    }

    method AllowRequest(now: nat) returns (allowed: bool)
      modifies this
      ensures (View(), allowed) == Allow(config, old(View()), now)
    {
      metrics := metrics.(total := metrics.total + 1);
      match state {
        case Closed =>
          allowed := true;
        case Open =>
          if Elapsed(lastStateChange, now) >= config.resetTimeout {
            TransitionToHalfOpen(now);
            allowed := true;
          } else {
            RecordRejectedRequest();
            allowed := false;
          }
        case HalfOpen =>
          if halfOpenRequests < config.halfOpenMaxRequests {
            halfOpenRequests := Increment(halfOpenRequests);
            allowed := true;
          } else {
            RecordRejectedRequest();
            allowed := false;
          }
      }
    }

    method RecordSuccess(now: nat)
      modifies this
      ensures View() == Succeed(config, old(View()), now)
    {
      var current := state;
      successCount := Increment(successCount);
      metrics := metrics.(successful := metrics.successful + 1);
      match current {
        case Closed => failureCount := 0;
        case HalfOpen =>
          if successCount >= config.successThreshold {
            TransitionToClosed(now);
          }
        case Open =>
      }
    }

    method RecordFailure(now: nat)
      modifies this
      ensures View() == Fail(config, old(View()), now)
    {
      var current := state;
      failureCount := Increment(failureCount);
      metrics := metrics.(failed := metrics.failed + 1);
      match current {
        case Closed =>
          if failureCount >= config.failureThreshold {
            TransitionToOpen(now);
          }
        case HalfOpen => TransitionToOpen(now);
        case Open =>
      }
    }

    method ExecuteOperation(asked: nat, done: nat, succeeds: bool) returns (outcome: Outcome)
      modifies this
      ensures (View(), outcome) == Execute(config, old(View()), asked, done, succeeds)
    {
      var allowed := AllowRequest(asked);
      if !allowed {
        return CircuitOpen;
      }
      if succeeds {
        RecordSuccess(done);
        outcome := Completed;
      } else {
        RecordFailure(done);
        outcome := OperationFailed;
      }
    }

    method ResetBreaker(now: nat)
      modifies this
      ensures View() == Reset(old(View()), now)
    {
      failureCount, successCount, halfOpenRequests := 0, 0, 0;
      state := Closed;
      lastStateChange := now;
    }
  }
}
