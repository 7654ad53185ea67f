# Circuit breaker state machine

A model of the `CircuitBreaker` class of the CircuitBreakerExperiment
library, together with its three state classes. The breaker wraps calls to
protected code and counts the code's failures. It is Closed while the count is
below a fixed threshold; at the threshold it opens and rejects calls without
running the code. A HalfOpen state lets one probe through: a success closes the
breaker and a failure reopens it. `Open()` and `Close()` force a transition.

The model has five modules:

- `BreakerSpec` holds the state machine as values. `State` is
  `Closed | Open | HalfOpen`, and `Snapshot` holds the fields that change:
  state, counter and last exception. Each event has a function giving the new
  snapshot: `EnterClosed`, `EnterOpen`, `EnterHalfOpen`, `AfterException`,
  `AfterSuccess` and `AfterAttempt`. `Step` and `Run` apply public operations
  in sequence. The lemmas state what the breaker promises.
- `CircuitBreakerExperiment` holds the class `CircuitBreaker<E>`. Its fields
  change in place as in the source. Each virtual method of the state classes
  is a breaker method that dispatches on the `state` tag. Each state-changing method
  of the state machine is proved to change `View()` as the matching
  BreakerSpec function says. The two counter helpers are specified on
  `Failures` alone. The exception
  type is the type parameter `E`, and `Option<E>`'s `None` stands for `null`.
  `Threshold` and `TimeOut` are only set by the constructor, so they are
  `const` fields and cannot change afterwards.
- `SystemTypes` holds the .NET value types: 32-bit `int` and
  `TimeSpan`, a 64-bit count of 100-nanosecond ticks. `Failures++` wraps at
  the top of the 32-bit range as in unchecked C#. `TimeSpan.Minutes` is
  computed with C#'s truncating division.
- `TestHarness` holds the demonstration program as a client of the class. Its
  three failing calls are proved to give "Called Code Successfully" twice and
  then "too many fail attempts".
- `Wrappers` holds `Option` and `Result`.

`IsClosed`, `IsOpen`, `IsHalfOpen`, `IsThresholdReached` and
`GetExceptionFromLastAttemptCall` are functions that read the breaker, so they
cannot change anything. The source's status getters call `state.Update()`, and
every `Update` returns the object it was called on.

## Where the code differs from its evident intent

`OpenState` holds code for time-based recovery that never runs. Lines 51-52
and 58-62 of CircuitBreakerExperiment/Experiment.cs would move an Open breaker
whose timeout has elapsed to HalfOpen. `ProtectedCodeIsAboutToBeCalled`
returns at line 50, and `Update` returns at line 57, both before that code.
So an Open breaker leaves Open only through `Close()` (`OnlyCloseLeavesOpen`).
HalfOpen cannot be reached through the public operations
(`HalfOpenUnreachable`). The model follows the code as written. The HalfOpen
transitions are still modelled. They apply to a breaker put into HalfOpen with
`MoveToHalfOpenState`, which the source marks `internal`.

The constructor's exception message at line 118, "Timeout should be greater
than 0", shows that the check was meant to reject non-positive timeouts. Line
116 instead tests `timeout.Minutes`, the minutes component of the duration,
which lies between -59 and 59. Every non-positive timeout is rejected. So is
every timeout shorter than a minute, and every whole number of hours: 60
minutes is rejected and 61 minutes is accepted. The model follows the code
(`ValidateConfig`, `WholeMinutesTimeout`).

## Model

| member | source | states |
|---|---|---|
| SystemTypes.MinutesComponent | CircuitBreakerExperiment/Experiment.cs:116 | `TimeSpan.Minutes` lies in [-59, 59]. For a non-negative duration it is the whole minutes modulo 60. A non-positive duration has a non-positive component. |
| SystemTypes.FromMinutes | TestHarness/Program.cs:12 | `TimeSpan.FromMinutes` for whole minutes. For a non-negative count, the minutes component of the result is the count modulo 60. |
| BreakerSpec.ValidateConfig | CircuitBreakerExperiment/Experiment.cs:111-119 | The configuration is accepted iff threshold >= 1, the timeout is non-negative and its whole minutes modulo 60 are non-zero. A bad threshold is reported first, with the source's parameter name and message. Otherwise the timeout error is reported. |
| BreakerSpec.WholeMinutesTimeout | CircuitBreakerExperiment/Experiment.cs:116-119 | With a valid threshold, a timeout of n whole minutes is accepted iff n is not a multiple of 60. So 15 minutes is accepted and 60 minutes is rejected. |
| BreakerSpec.ShortTimeoutRejected | CircuitBreakerExperiment/Experiment.cs:116-119 | Every timeout below one minute is rejected with the timeout error. This includes zero and negative timeouts. |
| BreakerSpec.ForcedTransitions | CircuitBreakerExperiment/Experiment.cs:221-235 | `Close()` yields Closed with counter 0 from any state. `Open()` yields Open and keeps the counter. |
| BreakerSpec.FailureWhileClosed | CircuitBreakerExperiment/Experiment.cs:92-99 | Under the invariant, a failed call while Closed adds exactly one to the counter. The breaker becomes Open iff the new count reaches the threshold, and otherwise stays Closed. |
| BreakerSpec.SuccessfulCall | CircuitBreakerExperiment/Experiment.cs:78-82 | A successful call changes neither state nor counter outside HalfOpen, so a success while Closed does not reset the counter. From HalfOpen it gives Closed with counter 0. |
| BreakerSpec.FailedProbe | CircuitBreakerExperiment/Experiment.cs:72-76 | A failed call from HalfOpen counts the failure and gives Open, whatever the threshold and the count. |
| BreakerSpec.LastException | CircuitBreakerExperiment/Experiment.cs:189-211 | After an attempt, the last exception is the thrown value iff the code ran, and null otherwise. A rejected call changes nothing else. |
| BreakerSpec.ClosedInvPreserved | CircuitBreakerExperiment/Experiment.cs:87-99 | "Closed implies 0 <= counter < threshold" is kept by every public operation and by the internal transitions, from every state. |
| BreakerSpec.RunPreservesClosedInv | CircuitBreakerExperiment/Experiment.cs:150-154 | The Closed invariant holds after any sequence of calls, forced openings and forced closings. |
| BreakerSpec.PublicInvPreserved | CircuitBreakerExperiment/Experiment.cs:48-63 | One public operation keeps four facts: not HalfOpen, counter in [0, threshold], and below the threshold while Closed. |
| BreakerSpec.RunKeepsPublicInv | CircuitBreakerExperiment/Experiment.cs:189-235 | Any sequence of public operations keeps those facts. |
| BreakerSpec.HalfOpenUnreachable | CircuitBreakerExperiment/Experiment.cs:55-62 | From a new breaker, no sequence of public operations reaches HalfOpen. The counter never exceeds the threshold, so `Failures++` never wraps. |
| BreakerSpec.OpenAbsorbsCalls | CircuitBreakerExperiment/Experiment.cs:189-198 | From Open, any sequence of calls stays Open and leaves the counter unchanged. After at least one call, the last exception is null. |
| BreakerSpec.OnlyCloseLeavesOpen | CircuitBreakerExperiment/Experiment.cs:48-63 | From Open, any sequence of calls and forced openings with no `Close()` keeps the breaker Open with the counter unchanged. |
| BreakerSpec.ConsecutiveFailures | CircuitBreakerExperiment/Experiment.cs:92-99 | Take n consecutive failing calls from Closed with count c < threshold t. The count becomes min(c + n, t). The state is Closed iff c + n < t, and Open otherwise. |
| CircuitBreakerExperiment.CircuitBreaker.constructor | CircuitBreakerExperiment/Experiment.cs:109-124 | For arguments that pass the checks: Closed, counter 0, no exception, the given threshold and timeout, invariant established. |
| CircuitBreakerExperiment.CircuitBreaker.Create | CircuitBreakerExperiment/Experiment.cs:109-124 | Fails with ValidateConfig's error iff the arguments fail its checks. Otherwise it returns a fresh valid breaker in the initial state. |
| CircuitBreakerExperiment.CircuitBreaker.IsClosed | CircuitBreakerExperiment/Experiment.cs:126-132 | Holds iff the state is neither Open nor HalfOpen. It is a function, so it changes nothing, as the source's `Update` returns `this`. |
| CircuitBreakerExperiment.CircuitBreaker.IsOpen | CircuitBreakerExperiment/Experiment.cs:134-140 | Holds iff the state is neither Closed nor HalfOpen. It changes nothing, because `OpenState.Update` returns at line 57 before its timeout check. |
| CircuitBreakerExperiment.CircuitBreaker.IsHalfOpen | CircuitBreakerExperiment/Experiment.cs:142-148 | Holds iff the state is neither Closed nor Open. It changes nothing, as the source's `Update` returns `this`. |
| CircuitBreakerExperiment.CircuitBreaker.IsThresholdReached | CircuitBreakerExperiment/Experiment.cs:178-181 | Holds iff the counter is at least the threshold. A valid breaker that is Closed never has it. |
| CircuitBreakerExperiment.CircuitBreaker.GetExceptionFromLastAttemptCall | CircuitBreakerExperiment/Experiment.cs:183-187 | Gives the last-exception slot. By `AttemptCall`'s contract, that is what the last admitted call threw, and null otherwise. |
| CircuitBreakerExperiment.CircuitBreaker.MoveToCloseState | CircuitBreakerExperiment/Experiment.cs:150-154 | The state becomes Closed and the counter 0, through ClosedState's entry action at lines 87-90. |
| CircuitBreakerExperiment.CircuitBreaker.MoveToOpenState | CircuitBreakerExperiment/Experiment.cs:156-160 | The state becomes Open. The counter and the last exception are unchanged. |
| CircuitBreakerExperiment.CircuitBreaker.MoveToHalfOpenState | CircuitBreakerExperiment/Experiment.cs:162-166 | The state becomes HalfOpen. The counter and the last exception are unchanged. |
| CircuitBreakerExperiment.CircuitBreaker.IncreaseFailureCount | CircuitBreakerExperiment/Experiment.cs:168-171 | The counter grows by one with 32-bit unchecked wrap-around. Nothing else changes. |
| CircuitBreakerExperiment.CircuitBreaker.ResetFailureCount | CircuitBreakerExperiment/Experiment.cs:173-176 | The counter becomes 0. Nothing else changes. |
| CircuitBreakerExperiment.CircuitBreaker.ActUponException | CircuitBreakerExperiment/Experiment.cs:72-99 | Fields change as `AfterException`. Every variant counts the failure (lines 28-31). Closed opens at the threshold, HalfOpen opens unconditionally, and Open does nothing more. |
| CircuitBreakerExperiment.CircuitBreaker.ProtectedCodeHasBeenCalled | CircuitBreakerExperiment/Experiment.cs:78-82 | Fields change as `AfterSuccess`. Only HalfOpen reacts, by closing. The base version at lines 23-26 does nothing. |
| CircuitBreakerExperiment.CircuitBreaker.AttemptCall | CircuitBreakerExperiment/Experiment.cs:189-219 | The code runs iff the breaker was not Open. The last exception is the thrown value if the code ran, and null otherwise. The fields change as `AfterAttempt`, and the invariant is kept. |
| CircuitBreakerExperiment.CircuitBreaker.Close | CircuitBreakerExperiment/Experiment.cs:221-227 | Closed with counter 0 from any state, keeping the invariant. |
| CircuitBreakerExperiment.CircuitBreaker.Open | CircuitBreakerExperiment/Experiment.cs:229-235 | Open with the counter unchanged from any state, keeping the invariant. |
| CircuitBreakerExperiment.StatusExactlyOne | CircuitBreakerExperiment/Experiment.cs:126-148 | Exactly one of `IsClosed`, `IsOpen` and `IsHalfOpen` holds. |
| TestHarness.TestCircuitBreaker | TestHarness/Program.cs:26-36 | Performs one failing attempt. The message is "Called Code Successfully" iff the breaker is Closed afterwards. |
| TestHarness.RunHarness | TestHarness/Program.cs:12-21 | With threshold 3 and a 15-minute timeout, three failing calls give "Called Code Successfully" twice and then "too many fail attempts". |

## Left out

- Locking: the `Monitor` object and the `lock` blocks (CircuitBreakerExperiment/Experiment.cs lines 104, 192, 207, 214, 223 and 231) are left out, and the breaker is modelled as sequential. Each method runs as one atomic step. The interleavings between the admission check and the success or failure notification are not modelled. Neither are the status queries reading `state` without the lock.
- Wall clock: `OpenState`'s `openDateTime` (taken from `DateTime.UtcNow`, lines 42-46) is never read by reachable code, so `Open` carries no timestamp. The timeout comparison at lines 58-62 and the `Update` call at lines 51-52 come after a `return` and are not modelled.
- Protected code: running the `Action` delegate is replaced by the outcome it would have (`threw`). Concrete exception types are replaced by the type parameter `E`. The exception passed to `ActUponException` is not a parameter of the model, because no variant uses it. A delegate that calls back into the breaker (`Close()`, `Open()` or a nested `AttemptCall`) is not modelled either. Such a call would change the state between admission and notification, and so which variant's `ActUponException` or `ProtectedCodeHasBeenCalled` runs. The model always notifies the state that admitted the call.
- `ProtectedCodeIsAboutToBeCalled` and `Update`: in every variant they return without changing anything, so they have no member of their own. A comment in `AttemptCall` marks where the first would be called.
- The values returned by `MoveTo*State` are used only by the dead code at line 60 and are dropped. `AttemptCall` returns whether the code ran instead of the breaker itself.
- `TimeSpan.FromMinutes` takes a floating-point argument. It is modelled only for whole minutes.
- TestHarness/Program.cs: the console output and `Console.ReadLine` are left out, and the messages are returned instead. `DoSomething`'s loop is modelled by its outcome, `NotImplementedException` thrown on the first iteration.
