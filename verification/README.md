# Computer-using agent: a Dafny model

This project models the core of a small computer-using agent written in
JavaScript/TypeScript. The agent drives a Playwright browser page from the
answers of a language model. It has two parts:

- `ComputerUsingAgent` (index.js). It keeps a dictionary of jobs. `start`
  registers a job as running and launches `runTask`. The promise callbacks
  later mark the job completed or failed. `runTask` navigates once to a seed
  URL and then loops: take a screenshot, ask the model for tool invocations,
  and perform them in order through `executeAction`. The loop stops at the
  first answer with no invocations.
- `PlaywrightComputer` (lib/playwright-computer.ts). It wraps a page in a few
  actions: `clickAt`, `typeTextAt` and `navigate`. Each action issues its page
  operations in a fixed order and then re-observes the page through
  `currentState`, which waits, takes a screenshot and reads the URL. Every
  action first checks that the browser was started.

## Files

- `base.dfy` (module `Base`): `Option` and `Result`.
- `playwright.dfy` (module `Playwright`): how the page is modelled.
  - Every operation issued on a page is appended to the page's `trace`.
  - Which operation throws is decided by an oracle: a set `faults` of trace
    positions. A timer and `page.url()` never throw.
  - What a screenshot shows (`pixels`) and what the URL reads (`address`) are
    also oracles, indexed by trace position.
  - `Attempt` is the specification of a chain of `await`s: every operation up
    to and including the first one that throws is issued, and nothing after it.
- `computer.dfy` (module `Computer`): the class `PlaywrightComputer`, URL
  normalisation, and the "mutate, then re-observe" specification `Observed`.
- `jobs.dfy` (module `Jobs`): the job registry.
  - `Apply` is what one event does to the dictionary. The events are `start`,
    the `.then` callback and the `.catch` callback.
  - `Replay` is the dictionary after a history of events.
  - Lemmas state what any history, or any well-behaved one, leaves behind.
- `agent.dfy` (module `Agent`): the class `ComputerUsingAgent`.
  - Its methods are proved against specification functions:
    - `Turn` is one pass of the `while (true)` loop;
    - `Cycles` is the loop itself;
    - `Run` is `runTask`.
  - The model's answers are given as a sequence of `Decision`s, one per pass.
    Each is a list of tool invocations, or the error the decision call threw.

Four facts about the code shape the model:

- there is no iteration bound: the loop asks for decisions for as long as
  answers have invocations;
- action errors are not isolated: an error from any page operation, or from
  the decision call, ends the run and fails the job;
- an unknown job id is not an error: `getStatus` returns nothing;
- the only tool names are "click" and "type", and any other name does nothing.

The decision call in `runTask` names `experimental_streamText`, which the file
never imports, so as written every decision call throws.
`Agent.RunAsWrittenFails` states the run that results. The rest of the model
treats the decision as an oracle answer, so that the loop's behaviour on real
answers is covered too.

## Model

| member | source | states |
|---|---|---|
| Playwright.Attempt | index.js:78-81 | A chain of `await`s, one operation after another from a given trace position: every operation up to and including the first that throws is issued, with that error, and nothing after it. The five lemmas below state its properties. |
| Playwright.AttemptIssuesPrefix | index.js:78-81 | Awaiting operations one after another issues a prefix of them. With no error it is all of them. Otherwise it ends at the operation whose fault is the error reported. |
| Playwright.AttemptStopsAtFirstThrow | index.js:78-81 | Every operation before the last one issued went through: the chain stops at the first throw. |
| Playwright.AttemptSucceedsIffNoneThrows | index.js:78-81 | The chain of awaits completes without error exactly when none of its operations throws at its trace position. |
| Playwright.AttemptAppend | lib/playwright-computer.ts:67-73 | Awaiting `a` then `b` is awaiting `a + b`: `b` is started only if all of `a` went through. |
| Playwright.AttemptWithoutFaults | lib/playwright-computer.ts:55-81 | On a page that never throws, every operation is issued and no error is reported. |
| Playwright.Page.Perform | lib/playwright-computer.ts:57 | Issuing an operation appends exactly it to the trace, and reports the page's fault for it at that position. |
| Playwright.Page.Wait | lib/playwright-computer.ts:42 | Awaiting the settle timer appends exactly a `Pause` of that many milliseconds to the trace; it never throws. |
| Playwright.Page.TakeScreenshot | lib/playwright-computer.ts:44-47 | A screenshot is appended to the trace. It returns the page's PNG bytes at that position, or the error it threw. |
| Playwright.Page.Url | lib/playwright-computer.ts:51 | Reading the URL appends a read to the trace and returns the page's address at that position; it never throws. |
| Computer.NormalizeUrl | lib/playwright-computer.ts:78 | The URL handed to `goto`: the input when it starts with "http", otherwise the input behind "https://". Its properties are the four lemmas below. |
| Computer.NormalizedUrlStartsWithHttp | lib/playwright-computer.ts:78 | What reaches `goto` always starts with "http". It equals the input exactly when the input already did. Otherwise it is the input, whole, behind "https://". |
| Computer.NormalizeUrlIdempotent | lib/playwright-computer.ts:78 | Normalising a normalised URL changes nothing. |
| Computer.SchemelessHttpHostPassesThrough | lib/playwright-computer.ts:78 | A scheme-less host that starts with "http" ("httpbin.org") is passed through with no scheme. |
| Computer.BareHostGetsHttps | lib/playwright-computer.ts:78 | A bare host ("example.com") gets the "https://" prefix. |
| Computer.Look | lib/playwright-computer.ts:38-53 | What `currentState` returns on a page whose trace has length n: the first error of the observation chain, or the base-64 screenshot and URL read at their trace positions. `ObserveSteps` states which steps can throw. |
| Computer.ObserveOps | lib/playwright-computer.ts:41-51 | The operations of one observation, in order: the load-state wait, the 500 ms timer, the screenshot and the URL read. `ObservationDoesNotMutate` and `ObserveSteps` state its properties. |
| Computer.ObservationDoesNotMutate | lib/playwright-computer.ts:38-53 | `currentState` issues no click, typing, key press or navigation. |
| Computer.ObserveSteps | lib/playwright-computer.ts:41-51 | Observation is: wait for the load state, a 500 ms timer, a screenshot, and a URL read, in that order. Only the first and the third can throw, and an error stops the rest. |
| Computer.TypingOps | lib/playwright-computer.ts:68-72 | The operations of `typeTextAt`: a click at the point, the typing, and Enter when asked to. `TypingClicksTypesThenMaybeEnter` and `TypingSteps` state its properties. |
| Computer.TypingClicksTypesThenMaybeEnter | lib/playwright-computer.ts:68-72 | `typeTextAt` clicks at the point, then types the text. It presses Enter if and only if asked to. Every one of these changes the page, and none navigates. |
| Computer.TypingSteps | lib/playwright-computer.ts:68-72 | The typing awaits, one by one: a click error stops before typing, and a typing error stops before Enter. |
| Computer.Observed | lib/playwright-computer.ts:55-81 | What an action returns: the mutation's error, or else what `Look` returns right after the mutation. `MutateThenObserve` relates it to the trace. |
| Computer.MutateThenObserve | lib/playwright-computer.ts:55-81 | An action issues its mutation in full before any observation operation. An error in the mutation means no observation at all. A state is returned only when every operation went through, and its screenshot and URL are the ones taken after the mutation. |
| Computer.CleanActionObserves | lib/playwright-computer.ts:55-81 | On a page that never throws, every action returns the state observed right after its mutation. |
| Computer.PlaywrightComputer.constructor | lib/playwright-computer.ts:14-20 | The screen size defaults to 1280x720 when none is given. `initialUrl` and `highlightMouse` are ignored. No browser, context or page is set. |
| Computer.PlaywrightComputer.Start | lib/playwright-computer.ts:22-36 | Launches a browser that is headless exactly when PLAYWRIGHT_HEADLESS is "true". Opens a context whose viewport is the screen size, and a page. Navigates to "https://www.google.com" whatever `initialUrl` was, and reports that navigation's error. |
| Computer.PlaywrightComputer.CurrentState | lib/playwright-computer.ts:38-53 | Without a page it fails with "Browser not initialized" and issues nothing. Otherwise it issues the observation chain and returns the screenshot (base-64) and URL, or the first error. |
| Computer.PlaywrightComputer.ClickAt | lib/playwright-computer.ts:55-59 | Without a page it fails with "Browser not initialized". Otherwise it issues one click at (x, y) and then a fresh observation, and returns what `Observed` says. |
| Computer.PlaywrightComputer.TypeTextAt | lib/playwright-computer.ts:61-74 | Without a page it fails with "Browser not initialized". Otherwise it issues a click, the typing, and Enter only when `pressEnter` is true, then a fresh observation. |
| Computer.PlaywrightComputer.Type | lib/playwright-computer.ts:68-72 | The three awaits of `typeTextAt` issue exactly the chain `Attempt` specifies for the typing operations, and report its error. |
| Computer.PlaywrightComputer.Navigate | lib/playwright-computer.ts:76-81 | Without a page it fails with "Browser not initialized". Otherwise it navigates to the normalised URL, then observes. |
| Jobs.Apply | index.js:89-99 | `start` adds its id and the callbacks add none. Every other id keeps its record. |
| Jobs.Replay | index.js:89-99 | The `jobs` dictionary after a history of events, from the empty dictionary the constructor makes. `ComputerUsingAgent.Valid()` keeps the class's dictionary equal to it. `KnownIffStarted`, `RecordOf` and `SettledIsFinal` state its properties. |
| Jobs.KnownIffStarted | index.js:103-105 | Whatever the history, `getStatus` finds a record exactly for the ids that were started. |
| Jobs.RecordOf | index.js:91-99 | In a history where ids are fresh and each run settles at most once, a job stays running until its run settles. A completed record has no error and its completion callback ran. A failed record carries the error of a failure callback that ran for it. |
| Jobs.SettledIsFinal | index.js:92-99 | Once a job of such a history has left running, its record never changes again. |
| Jobs.ReusedIdMixesRecords | index.js:90-99 | Ids are not checked for uniqueness. Restarting an id resets its record, and a stale failure followed by a completion leaves a completed record that carries the failure's error. |
| Agent.ActionOps | index.js:30-39 | The page operations `executeAction` issues for one invocation. `ActionDispatch` states the dispatch. |
| Agent.AnswerOps | index.js:78-81 | The operations of a whole answer: each invocation's operations, in the order returned. `AnswerOnlyActs` and `AnswerOpsAppend` state its properties. |
| Agent.ActionDispatch | index.js:30-39 | "click" issues one click at (x, y). "type" issues a click at (x, y), then the typing. Every other tool name issues nothing. |
| Agent.AnswerOnlyActs | index.js:78-81 | An answer's invocations only click and type. |
| Agent.AnswerOpsAppend | index.js:78-81 | Invocations run in the order returned: the operations of `a + b` are those of `a`, then those of `b`. |
| Agent.UnknownToolsIssueNothing | index.js:30-39 | Invocations that all name unknown tools issue no operation. |
| Agent.Turn | index.js:45-85 | One pass of the loop: a screenshot, the decision, then the answer's operations awaited in order. The first error ends the run, and an answer without invocations breaks the loop. `TurnShape`, `CleanTurn` and `TurnFaults` state its properties. |
| Agent.Cycles | index.js:44-86 | The loop: one pass per answer for as long as each pass leaves the loop going. `DecisionsAsked`, `CyclesNeverNavigate`, `CleanCycles` and `PageErrorsEndTheRun` state its properties. |
| Agent.Run | index.js:41-44 | Every run starts with the navigation to "https://google.com". |
| Agent.TurnShape | index.js:44-86 | A pass starts with its screenshot and never navigates. A screenshot that throws ends the run with its error before any decision is asked. Otherwise the pass asks for exactly one decision. The loop goes on only after an answer that has invocations. |
| Agent.CleanTurn | index.js:45-85 | On a page that never throws, a pass issues a screenshot and then its answer's operations. It goes on after an answer with invocations, breaks after an empty answer, and fails with the decision call's error. |
| Agent.TurnFaults | index.js:44-86 | A page error in a pass is never caught. The pass issues a prefix of what it issues on a page that never throws, and where the two differ it ended with the error of its last operation. |
| Agent.DecisionsAsked | index.js:44-86 | The loop asks for at most as many decisions as there are answers. It is still going only if it used them all. |
| Agent.CyclesNeverNavigate | index.js:44-86 | The loop never navigates. |
| Agent.SeedNavigationOnce | index.js:41-87 | The seed navigation is the first operation of every run and the only navigation in it. |
| Agent.CleanCycles | index.js:44-86 | On a page that never throws, answers with invocations run as that many full passes, in order, before the loop sees what follows. |
| Agent.FinishesAtFirstEmptyAnswer | index.js:77-85 | On a page that never throws, the loop breaks at the first answer without invocations, after exactly that many decisions, and asks for nothing more. |
| Agent.DecisionErrorIsFatal | index.js:47-75 | On a page that never throws, a decision call that throws ends the run with its error. The earlier passes' operations stay done. |
| Agent.NoIterationCap | index.js:44 | On a page that never throws, while every answer has invocations the loop keeps asking, with no bound on the number of passes. |
| Agent.UnknownToolsKeepLooping | index.js:77-85 | An answer whose invocations all name unknown tools issues nothing, yet counts as an action taken, so the loop takes another pass. |
| Agent.PageErrorsEndTheRun | index.js:44-86 | The loop on a throwing page issues a prefix of what the same loop issues on a page that never throws. Where the two differ, the loop ended with the error of its last operation. |
| Agent.RunCut | index.js:41-87 | A whole run on a throwing page, seed navigation included, issues a prefix of what the same run issues on a page that never throws. Where the two differ, the run ended with the error of its last operation. |
| Agent.RunAsWrittenFails | index.js:47 | On a page that never throws, as written, the decision call throws because `experimental_streamText` is undefined. A run does the seed navigation and one screenshot, then fails. |
| Agent.ComputerUsingAgent.constructor | index.js:7-12 | The job dictionary starts empty. |
| Agent.ComputerUsingAgent.Start | index.js:89-101 | Stores a running record with no error under the given id, overwriting any earlier one, and returns the id. No other record changes. |
| Agent.ComputerUsingAgent.Complete | index.js:93-95 | The `.then` callback sets only the status to completed. No other record changes. |
| Agent.ComputerUsingAgent.Fail | index.js:96-99 | The `.catch` callback sets the status to failed and records the error. No other record changes. |
| Agent.ComputerUsingAgent.GetStatus | index.js:103-105 | Returns the stored record unchanged, and nothing for an id with no record. |
| Agent.ComputerUsingAgent.ExecuteAction | index.js:30-39 | Issues exactly the chain of awaits of the dispatched operations, and reports its error. |
| Agent.ComputerUsingAgent.PerformInvocations | index.js:77-81 | Performs the invocations in order and stops at the first error. The trace gains exactly what `Attempt` says. Without an error, an action was taken exactly when there was an invocation. |
| Agent.ComputerUsingAgent.TakeTurn | index.js:45-85 | One pass of the loop does what `Turn` specifies, in trace and outcome. |
| Agent.ComputerUsingAgent.RunTask | index.js:41-87 | The trace gains exactly `Run`'s operations, and the outcome is `Run`'s outcome. |
| Agent.ComputerUsingAgent.StartAndWait | index.js:107-113 | Starts the job and runs it. The record it returns is completed (no error) when the loop broke, and failed (with the error) when something threw. That record is not running and is the job's stored record. The dictionary gains no id other than the job's, and no other job's record changes. |

## Left out

- `initialize`, the body of `takeScreenshot` in index.js (the screenshot is
  one page operation), `main`, and `close` in lib/playwright-computer.ts are
  not modelled. The agent is constructed with a page that is already open.
- lib/tools.ts, app/api/chat/route.ts and the React UI are not part of this
  model.
- The language model, Playwright and the browser are oracles:
  - the decision answers are a sequence of `Decision`s;
  - page errors are a set of trace positions;
  - screenshot bytes and URLs are functions of the trace position.
  - The prompt, the model name and the tool schemas are not modelled.
- Launching the browser and opening a context or a page never fail in the
  model. Only the page operations can throw.
- Base-64 encoding is kept symbolic (`Base64Of(bytes)`).
- The 500 ms settle delay is a `Pause` event in the trace, not time.
- JavaScript numbers are modelled as unbounded integers.
- `Math.random` ids are not modelled: the id is a parameter.
- Concurrency between jobs is not modelled. The promise callbacks are the
  explicit methods `Complete` and `Fail`, and `StartAndWait` calls them in
  program order.
- `Agent.ComputerUsingAgent.RunTask`: the loop in the source never ends while
  answers have invocations. The model consumes a finite sequence of answers
  and reports `Pending` when they run out.
- `Agent.ComputerUsingAgent.StartAndWait`: the 1000 ms polling loop is reduced
  to running the job to its end and reading its status once. When the answers
  run out the job is still running, and the model returns nothing where the
  source would still be waiting.
- Job records are returned by value. `getStatus` and `startAndWait` return
  the stored record object itself, so a caller holding it sees later status
  changes and could write through it. The model returns a copy and does not
  capture that aliasing, and `Jobs.SettledIsFinal` assumes no caller writes
  to a record.
- The number of decisions asked for is ghost bookkeeping. It is not part of
  the source's state.
