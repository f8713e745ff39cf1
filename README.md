# A verified model of the COS72 Tauri + Next.js template's logic

The application is a desktop demo built with Tauri (a Rust backend) and a
Next.js front end. Most of it is static pages. This project models the four
pieces that hold behaviour:

- **Backend** (`backend.dfy`, with `decimal.dfy` for Rust's `{}` formatting of integers)
  - The `calculate` command: dispatch on the operation name over `i32` operands, with Rust's truncating division.
  - Its two error results: division by zero and an unknown operation.
  - The description string it builds on success. This is proved to encode the operands and the operation without loss.
  - The `greet` command.
  - The task that `start_process_monitoring` spawns. It is a loop that emits ten samples (ids 0..9, memory `100 + 10·id`) and then stops. It is modelled as a method with loop invariants, proved against a trace function.
- **Demo page** (`demo.dfy`)
  - The page state is a class whose fields are the page's `useState` fields.
  - Each handler becomes a method. A bridge call is split into two methods: one that issues the call and one that handles how it settled. The settlement is an input to the second method.
  - The `process-status` listener keeps the last five payloads. It is proved to always hold the last `min(n, 5)` payloads received since the last reset, in arrival order.
- **Tasks page** (`tasks.dfy`)
  - The keyed status update behind `startTask` and `completeTask`.
  - The completed count.
  - The rule that decides which button a task card shows.
  - The handlers do not check a task's prior status. Only the buttons keep statuses moving forward, and only when task ids are distinct. Both facts are proved, with concrete counterexamples.
- **Onboarding page** (`onboarding.dfy`)
  - The wizard is a class with the fields `step` and `formData`, and its handlers are methods.
  - The same handlers are also given as a pure transition system. Reachability is proved on it: steps stay within 1..4, each step is reachable, and the success screen needs the terms accepted.
  - Also modelled: the submit gate, the single-field `handleChange` update, and the progress-indicator predicates.

Things the code does that a reader might not expect:
- `isMonitoring` is never cleared after the ten events arrive. Only a failed start clears it, so the start button stays disabled.
- The handlers of both the tasks page and the wizard accept any state. They rely on the screen to offer only sensible actions.

The buttons suggest that a task's status only moves forward. The handlers do not enforce this, and the model follows the code:
- The handlers let status go back: `startTask` on a completed task makes it in progress again (`Tasks.StartHandlerCanRevert`).
- Through the buttons, status can go back only if two tasks share an id (`Tasks.DuplicateIdClickReverts`).

## Model

| member | source | states |
|---|---|---|
| Decimal.IntToString | src-tauri/src/lib.rs:94 | `{}` of an integer is non-empty, starts with '-' exactly when the integer is negative, is otherwise all digits with no leading zero (only 0 itself is written "0"), and contains no space |
| Decimal.IntToStringRoundTrip | src-tauri/src/lib.rs:94 | reading the rendered integer back gives the integer |
| Decimal.IntToStringInjective | src-tauri/src/lib.rs:94 | distinct integers render as distinct strings |
| Backend.Greet | src-tauri/src/lib.rs:7-11 | the greeting is the fixed prefix followed by digits whose value is the epoch reading, with no leading zero |
| Backend.Exact | src-tauri/src/lib.rs:78-87 | the value of a known operation over unbounded integers; for divide by a non-zero divisor it is the truncated quotient, no larger in size than the dividend |
| Backend.TruncDiv | src-tauri/src/lib.rs:86 | Rust's `/` gives a quotient whose remainder is smaller than the divisor and is zero or has the dividend's sign; the quotient is no larger in size than the dividend |
| Backend.TruncatedQuotientUnique | src-tauri/src/lib.rs:86 | an integer has the truncated-quotient property if and only if it is TruncDiv's result |
| Backend.Calculate | src-tauri/src/lib.rs:66-96 | success exactly for add/subtract/multiply and for divide by non-zero; results a+b, a−b, a·b and the truncated quotient; `Err("Cannot divide by zero")` for b = 0; `Err("Unknown operation: " + op)` otherwise; the result carries the timestamp and exactly the description "Operation: {a} {op} {b}", which reads back as (a, op, b) |
| Backend.Description | src-tauri/src/lib.rs:94 | the description starts with "Operation: " and is at least as long as that prefix, the operation and four more characters |
| Backend.DescriptionRoundTrip | src-tauri/src/lib.rs:94 | "Operation: {a} {op} {b}" parses back to a, op and b whenever op has no space |
| Backend.DescriptionDeterminesInputs | src-tauri/src/lib.rs:91-95 | two successful calculations with the same description had the same operands and operation |
| Backend.Sample | src-tauri/src/lib.rs:112-117 | the sample of iteration `count` has id `count`, the clock reading as its timestamp, memory at least 100 and CPU below one (in tenths) |
| Backend.IterationEmissions | src-tauri/src/lib.rs:119-125 | an iteration emits its sample on `process-status`, then on `window-process-status` exactly when the window is found, and nothing else |
| Backend.MonitorTrace | src-tauri/src/lib.rs:110-135 | n iterations emit between n and 2n events |
| Backend.GlobalPayloads | src-tauri/src/lib.rs:109-120 | the `process-status` payloads of the first n iterations are exactly the samples of iterations 0..n−1, in order |
| Backend.SamplesAt | src-tauri/src/lib.rs:112-117 | there are n samples, and the k-th has id k, memory 100 + 10k and the k-th clock reading |
| Backend.WindowPayloads | src-tauri/src/lib.rs:122-125 | a sample is on `window-process-status` exactly when its iteration found the window |
| Backend.MonitorTask | src-tauri/src/lib.rs:108-136 | the loop emits the trace of exactly ten iterations: ten global events with ids 0..9 in order, memory 100 + 10·id and the clock reading of each iteration, then stops |
| Demo.Trim | src/app/demo/page.tsx:115-122 | the buffer after an append has min(len + 1, 5) entries and ends with the new payload |
| Demo.TrimBounded | src/app/demo/page.tsx:116-121 | an append keeps a buffer of at most five entries at most five long |
| Demo.TrimBelowCapacity | src/app/demo/page.tsx:116-121 | below five entries an append adds the payload at the end and drops nothing |
| Demo.TrimWindow | src/app/demo/page.tsx:115-122 | trimming the last-five window of what was received, after a new payload, gives the last-five window of the longer history |
| Demo.ReplayIsWindow | src/app/demo/page.tsx:110-123 | after any sequence of payloads from an empty buffer, the buffer is the last min(n, 5) of them in arrival order |
| Demo.ErrorText | src/app/demo/page.tsx:70-75 | a string reason is shown as it is; any other reason shows "An unknown error occurred" |
| Demo.BackendErrorShown | src/app/demo/page.tsx:70-75 | a `calculate` error reaches the page as its own string: "Cannot divide by zero" for divide, "Unknown operation: …" otherwise |
| Demo.DemoPage.constructor | src/app/demo/page.tsx:31-46 | initial state: no greeting, operands 0, operation "add", no result, no error, empty buffer, not monitoring, no hardware info, not loading, listener registered |
| Demo.DemoPage.GreetSettled | src/app/demo/page.tsx:49-57 | a resolved greeting is stored; a rejection changes nothing |
| Demo.DemoPage.SetFirstNumber | src/app/demo/page.tsx:171 | the first operand is replaced |
| Demo.DemoPage.SetSecondNumber | src/app/demo/page.tsx:180 | the second operand is replaced |
| Demo.DemoPage.SetOperation | src/app/demo/page.tsx:188 | the operation is replaced |
| Demo.DemoPage.PerformCalculation | src/app/demo/page.tsx:60-66 | the error is cleared before the call, and the call carries the current operands and operation |
| Demo.DemoPage.CalculationSettled | src/app/demo/page.tsx:67-77 | a result replaces the previous one; a rejection with a string sets the error to it, any other rejection sets "An unknown error occurred", and the previous result stays |
| Demo.DemoPage.StartMonitoring | src/app/demo/page.tsx:81-85 | the buffer is emptied, the history since the last reset restarts and `isMonitoring` becomes true |
| Demo.DemoPage.StartMonitoringSettled | src/app/demo/page.tsx:87-91 | only a failed start lowers `isMonitoring` |
| Demo.DemoPage.ReceiveProcessStatus | src/app/demo/page.tsx:114-122 | while the listener is registered the payload joins the history and the buffer stays the last-five window of the history (so at most five entries) |
| Demo.DemoPage.FetchHardwareInfo | src/app/demo/page.tsx:95-96 | `hardwareLoading` becomes true when the fetch is issued |
| Demo.DemoPage.HardwareSettled | src/app/demo/page.tsx:97-106 | `hardwareLoading` becomes false whether the fetch succeeded or failed; only success replaces the hardware information |
| Demo.DemoPage.Unmount | src/app/demo/page.tsx:131-134 | the listener is removed, so later payloads are not received |
| Tasks.SetStatus | src/app/tasks/page.tsx:20-32 | same length; a task with the given id gets the new status and keeps every other field; every other task is unchanged |
| Tasks.SetStatusNoMatch | src/app/tasks/page.tsx:22-24 | an id that matches no task leaves the list unchanged |
| Tasks.SetStatusKeepsOtherFields | src/app/tasks/page.tsx:23 | on each task only the status may differ |
| Tasks.CompletedCount | src/app/tasks/page.tsx:81 | the completed count is at most the number of tasks |
| Tasks.CompletedCountIsMultiplicity | src/app/tasks/page.tsx:81 | the completed count equals how often `completed` occurs among the statuses |
| Tasks.CompleteTaskCount | src/app/tasks/page.tsx:27-32 | with distinct ids, completing raises the count by one exactly when the task exists and is not yet completed |
| Tasks.StartTaskCount | src/app/tasks/page.tsx:20-25 | with distinct ids, starting lowers the count by one exactly when the task was completed (no prior-status check) |
| Tasks.Offered | src/app/tasks/page.tsx:117-127 | a card offers no button exactly when its task is completed, and offers start exactly when its task is available |
| Tasks.Click | src/app/tasks/page.tsx:117-127 | pressing a card's button keeps the length, moves an unfinished task one step along available, in progress, completed, leaves a completed card's list unchanged, and leaves the tasks with other ids alone |
| Tasks.ClickAdvances | src/app/tasks/page.tsx:117-123 | with distinct ids, a card's button moves that task one step along available, in progress, completed, and leaves the other tasks unchanged |
| Tasks.ClicksNeverRevert | src/app/tasks/page.tsx:117-123 | with distinct ids, no series of button presses moves any status backwards or changes any id |
| Tasks.StartHandlerCanRevert | src/app/tasks/page.tsx:20-25 | the start handler applied to the completed seeded task makes it in progress again |
| Tasks.DuplicateIdClickReverts | src/app/tasks/page.tsx:117-118 | if two cards share an id, starting the available one also takes the completed one back to in progress |
| Tasks.MockTasksFacts | src/app/tasks/page.tsx:137-186 | the seeded tasks have distinct ids and one of them is completed |
| Tasks.TasksPage.constructor | src/app/tasks/page.tsx:18 | the page starts with the seeded tasks |
| Tasks.TasksPage.StartTask | src/app/tasks/page.tsx:20-25 | the list becomes SetStatus(list, id, in progress) |
| Tasks.TasksPage.CompleteTask | src/app/tasks/page.tsx:27-32 | the list becomes SetStatus(list, id, completed) |
| Tasks.TasksPage.DisplayedCompleted | src/app/tasks/page.tsx:81 | the figure shown is the number of tasks whose status is completed |
| Onboarding.Updated | src/app/onboarding/page.tsx:16-22 | the named field takes `checked` for the checkbox and `value` otherwise, and every other field keeps its value |
| Onboarding.Apply | src/app/onboarding/page.tsx:24-36 | next adds one to the step, prev subtracts one, submit sets it to 4, going to the tasks changes nothing, a field change keeps the step, and only a field change touches the form |
| Onboarding.Buttons | src/app/onboarding/page.tsx:73-162 | next appears on steps 1 and 2, prev on 2 and 3, submit on 3 only, go-to-tasks on 4 only, and no button outside 1..4 |
| Onboarding.Inputs | src/app/onboarding/page.tsx:53-121 | inputs exist only on steps 1..3; the terms checkbox only on step 3 and the wallet field only on step 2 |
| Onboarding.Enabled | src/app/onboarding/page.tsx:53-162 | an action is possible only on steps 1..4; submit only on step 3 with the terms accepted; a field change only on steps 1..3 |
| Onboarding.EnabledKeepsReachable | src/app/onboarding/page.tsx:42-168 | an action the current screen offers keeps the step within 1..4 and keeps "step 4 implies terms accepted" |
| Onboarding.RunKeepsReachable | src/app/onboarding/page.tsx:24-36 | any series of offered actions keeps those two facts |
| Onboarding.ReachableFromInitial | src/app/onboarding/page.tsx:8-14 | every state reachable from the initial one has a step within 1..4, and at step 4 the terms are accepted |
| Onboarding.StepReachable | src/app/onboarding/page.tsx:73-162 | each of the steps 1..4 is reached by some series of offered actions |
| Onboarding.SubmitGate | src/app/onboarding/page.tsx:134-138 | on the confirmation step, submit is enabled exactly when the terms are accepted, and it leads to step 4 with the form unchanged |
| Onboarding.SuccessIsFinal | src/app/onboarding/page.tsx:158-163 | on the success screen every offered action leaves the wizard's state unchanged |
| Onboarding.Rendered | src/app/onboarding/page.tsx:42-168 | a screen is rendered exactly for steps 1..4, and the success screen exactly for step 4 |
| Onboarding.RenderedScreens | src/app/onboarding/page.tsx:42-168 | a screen is rendered exactly for steps 1..4, each step rendering its own screen |
| Onboarding.ConnectorLit | src/app/onboarding/page.tsx:180-190 | circle i is highlighted when step ≥ i (`CircleLit`); connector i is highlighted exactly when circle i + 1 is |
| Onboarding.LitCirclesCount | src/app/onboarding/page.tsx:176-186 | circle i is highlighted when step ≥ i, so k of the first n circles are highlighted, where k is the step bounded to 0..n |
| Onboarding.LitConnectorsCount | src/app/onboarding/page.tsx:187-194 | connector i is highlighted when step > i, so k of the first n connectors are highlighted, where k is step − 1 bounded to 0..n |
| Onboarding.IndicatorShowsStep | src/app/onboarding/page.tsx:176-197 | on step k in 1..4, min(k, 3) circles and min(k − 1, 2) connectors are highlighted, and a highlighted connector lies between two highlighted circles |
| Onboarding.OnboardingPage.constructor | src/app/onboarding/page.tsx:8-14 | step 1, all text fields empty, terms not accepted |
| Onboarding.OnboardingPage.HandleChange | src/app/onboarding/page.tsx:16-22 | the step is unchanged and only the named field changes |
| Onboarding.OnboardingPage.NextStep | src/app/onboarding/page.tsx:24-26 | step := step + 1 with no bound check, form unchanged |
| Onboarding.OnboardingPage.PrevStep | src/app/onboarding/page.tsx:28-30 | step := step − 1 with no bound check, form unchanged |
| Onboarding.OnboardingPage.HandleSubmit | src/app/onboarding/page.tsx:32-36 | step := 4, form unchanged |

## Left out

- Backend.Calculate: requires that the arithmetic result fits in `i32`. This excludes overflow of `+`, `-` and `*`, which panics in debug builds and wraps in release builds. It also excludes `i32::MIN / -1`, which panics in every build profile, because Rust checks division for overflow even when overflow checks are off.
- Backend.Calculate: the current time is a parameter, not a clock read. The `println!` of the window label is not modelled.
- Backend.Greet: the epoch reading is a parameter.
- Backend.MonitorTask:
  - The clock readings and whether the window is found are function parameters.
  - The one-second sleep, the async spawn and the `unwrap` of each emission are not modelled.
  - `cpu_usage` is kept as the integer `count % 10` (tenths). The float division by 10 is not modelled.
- The `start_process_monitoring` command itself always returns `Ok(())` after spawning the task. Its outcome is the `succeeded` input of `Demo.DemoPage.StartMonitoringSettled`.
- `get_hardware_info`: it only repackages values from the `sysinfo` library. The hardware record reaches the page as an opaque settlement value.
- The Tauri bridge (`invoke`, `listen`, `once`, `emit`, `get_webview_window`) is not modelled. Each call's outcome is a settlement input or a boolean input.
- The serialisation of arguments across the bridge is not modelled. This covers a JavaScript number that is not an `i32`.
- The one-shot `window-process-status` listener on the demo page is not modelled, because it only logs.
- `console.log` and `console.error` output is not modelled.
- Demo.DemoPage.SetFirstNumber: takes an integer. The `parseInt` coercion of the input text is not modelled. The same holds for `SetSecondNumber`.
- Onboarding: `goToTasks` and router navigation are not modelled. Going to the task page leaves the wizard's state as it is.
- Onboarding.Updated: requires that the event come from the input that the page renders for its field. The checkbox is the terms field, and the other fields are text or e-mail inputs. The handler's JavaScript semantics for a mismatched type, or for an unknown `name`, are not modelled.
- All JSX and CSS rendering is left out, except for the predicates named above: the screen chosen per step, the buttons and inputs each screen offers, the disabled submit, the indicator highlighting, and the button a task card offers. The other pages are not part of this model: home, points, shop, reputation, layout and the rounded button. They show fixed mock data and log clicks.
- React's re-rendering, stale closures and batching of state updates are not modelled. Each handler runs to completion on the current state.
