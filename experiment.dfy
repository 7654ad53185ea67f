/** The `CircuitBreaker` class. Its fields change in place as in the
    source; the active state object is the `State` tag in `state`, and each
    virtual method of `CircuitBreakerState` and its subclasses becomes a
    method of the breaker that dispatches on that tag. Every method is proved
    to change the fields as the matching function of BreakerSpec says. */
module CircuitBreakerExperiment {
  import opened Wrappers
  import opened SystemTypes
  import opened BreakerSpec

  class CircuitBreaker<E> {
    var state: State
    var Failures: int32
    /** Only the constructor sets these (`private set`), so they are constants. */
    const Threshold: int32
    const TimeOut: int64
    var exceptionFromLastAttemptCall: Option<E>

    /** The fields that change after construction, as one value. */
    function View(): Snapshot<E>
      reads this
    {
      Snapshot(state, Failures, exceptionFromLastAttemptCall)
    }

    /** The configuration passed the constructor's checks, and while Closed
        the counter is below the threshold. */
    predicate Valid()
      reads this
    {
      ValidateConfig(Threshold, TimeOut) == None && ClosedInv(View(), Threshold)
    }

    /** The constructor for arguments that pass its checks: Closed, with a zero
        counter and no recorded exception. */
    constructor (threshold: int32, timeout: int64)
      requires ValidateConfig(threshold, timeout) == None
      ensures Valid() && View() == Initial()
      ensures Threshold == threshold && TimeOut == timeout
    {
      Threshold := threshold;
      TimeOut := timeout;
      Failures := 0;
      exceptionFromLastAttemptCall := None;
      new;
      MoveToCloseState();
    }

    /** `new CircuitBreaker(threshold, timeout)`, throwing
        `ArgumentOutOfRangeException` for a threshold below 1 or a timeout
        whose minutes component is below 1. */
    static method Create(threshold: int32, timeout: int64) returns (r: Result<CircuitBreaker<E>, ConfigError>)
      ensures r.Err? <==> ValidateConfig(threshold, timeout) != None
      ensures r.Err? ==> Some(r.error) == ValidateConfig(threshold, timeout)
      ensures r.Ok? ==> fresh(r.value) && r.value.Valid() && r.value.View() == Initial()
      ensures r.Ok? ==> r.value.Threshold == threshold && r.value.TimeOut == timeout
    {
      var check := ValidateConfig(threshold, timeout);
      if check.Some? {
        return Err(check.value);
      }
      var breaker := new CircuitBreaker(threshold, timeout);
      return Ok(breaker);
    }

    /** The status getters test which variant `state.Update()` returns; every
        `Update` returns the state it was called on, so they read `state`
        and change nothing. */
    predicate IsClosed()
      reads this
      ensures IsClosed() <==> !state.Open? && !state.HalfOpen?
    {
      state.Closed?
    }

    predicate IsOpen()
      reads this
      ensures IsOpen() <==> !state.Closed? && !state.HalfOpen?
    {
      state.Open?
    }

    predicate IsHalfOpen()
      reads this
      ensures IsHalfOpen() <==> !state.Closed? && !state.Open?
    {
      state.HalfOpen?
    }

    /** A valid breaker that is Closed has not reached its threshold. */
    predicate IsThresholdReached()
      reads this
      ensures IsThresholdReached() <==> Threshold <= Failures
      ensures Valid() && state.Closed? ==> !IsThresholdReached()
    {
      Failures >= Threshold
    }

    /** The slot that `AttemptCall` clears and then fills with what the
        protected code threw. */
    function GetExceptionFromLastAttemptCall(): (e: Option<E>)
      reads this
      ensures e == View().lastException
    {
      exceptionFromLastAttemptCall
    }

    method MoveToCloseState()
      modifies this
      ensures View() == EnterClosed(old(View()))
    {
      // the new ClosedState's constructor resets the counter
      ResetFailureCount();
      state := State.Closed;
    }

    method MoveToOpenState()
      modifies this
      ensures View() == EnterOpen(old(View()))
    {
      state := State.Open;
    }

    method MoveToHalfOpenState()
      modifies this
      ensures View() == EnterHalfOpen(old(View()))
    {
      state := State.HalfOpen;
    }

    method IncreaseFailureCount()
      modifies this`Failures
      ensures Failures == UncheckedIncrement(old(Failures))
    {
      Failures := UncheckedIncrement(Failures);
    }

    method ResetFailureCount()
      modifies this`Failures
      ensures Failures == 0
    {
      Failures := 0;
    }

    /** `state.ActUponException(e)`. */
    method ActUponException()
      modifies this
      ensures View() == AfterException(old(View()), Threshold)
    {
      // the base class's action, which every variant runs first
      IncreaseFailureCount();
      match state
      case Closed =>
        if IsThresholdReached() {
          MoveToOpenState();
        }
      case HalfOpen =>
        MoveToOpenState();
      case Open =>
    }

    /** `state.ProtectedCodeHasBeenCalled()`. */
    method ProtectedCodeHasBeenCalled()
      modifies this
      ensures View() == AfterSuccess(old(View()))
    {
      if state.HalfOpen? {
        MoveToCloseState();
      }
    }

    /** `AttemptCall(protectedCode)`, where `threw` is what running the
        protected code would give: `None` when it returns, `Some(e)` when it
        throws `e`. `ran` says whether the code was run. */
    method AttemptCall(threw: Option<E>) returns (ran: bool)
      requires Valid()
      modifies this
      ensures Valid()
      ensures ran == Admits(old(state))
      ensures exceptionFromLastAttemptCall == if ran then threw else None
      ensures View() == AfterAttempt(old(View()), Threshold, threw)
    {
      exceptionFromLastAttemptCall := None;
      // `state.ProtectedCodeIsAboutToBeCalled()` changes nothing in any
      // variant: the Open override returns before it calls `Update`.
      if state.Open? {
        return false;
      }
      ran := true;
      match threw
      case Some(e) =>
        exceptionFromLastAttemptCall := Some(e);
        ActUponException();
      case None =>
        ProtectedCodeHasBeenCalled();
    }

    method Close()
      requires Valid()
      modifies this
      ensures Valid() && View() == EnterClosed(old(View()))
    {
      MoveToCloseState();
    }

    method Open()
      requires Valid()
      modifies this
      ensures Valid() && View() == EnterOpen(old(View()))
    {
      MoveToOpenState();
    }
  }

  /** The three status queries: exactly one holds. */
  lemma StatusExactlyOne<E>(breaker: CircuitBreaker<E>)
    ensures breaker.IsClosed() || breaker.IsOpen() || breaker.IsHalfOpen()
    ensures !(breaker.IsClosed() && breaker.IsOpen())
    ensures !(breaker.IsClosed() && breaker.IsHalfOpen())
    ensures !(breaker.IsOpen() && breaker.IsHalfOpen())
  {
  }
}
