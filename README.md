# Terminal host and curl-like client: a Dafny model

This project models three small pieces of sequential logic from a Rust repository:

- **The terminal UI host** (`terminal-ui/src/app/render.rs`). The `Host` has a lifecycle (`Running`, `ShuttingDown`, `Completed`), a selected tab, the last progress value reported by a background worker, and a shared cancellation flag. One event loop receives key events and progress reports from a channel. It applies each event, then draws the screen. In `Running`, q/Q asks for confirmation, c/C raises the cancellation flag, r/R clears the flag and starts a worker, and the arrow keys move between tabs without wrapping. In `ShuttingDown`, y/Y waits until no worker holds a handle to the flag and then completes, and n/N goes back to `Running`. The exit popup is centred with `u16` arithmetic.
- **The application's enums** (`terminal-ui/src/app/state.rs`). These are the channel's event type, the lifecycle, and the four tabs with their discriminants, `from_repr`, default, display strings and iteration order.
- **The web client's argument validation** (`terminal-web-client/src/main.rs`). Every `--headers` value must contain a colon. It is split at its first colon, both halves are trimmed, and the pairs go into a map where a later name overwrites an earlier one. The `--method` value is upper-cased and must be one of GET, POST, PUT and DELETE (section 9.3 of RFC 9110) or PATCH (RFC 5789). Headers are checked before the method. Each check prints an error and ends the program early, before any request is built.

Files:

- `wrappers.dfy`: `Option` and `Result`.
- `app_state.dfy` (module `AppState`): the enums of `state.rs`, plus the key event fields the host reads.
- `host_spec.dfy` (module `HostSpec`): the host's state machine as pure functions over a `HostView` snapshot, and the lemmas about it.
- `host.dfy` (module `HostApp`): class `Host` with the fields the source updates in place, key-handler methods, and the event loop `Run`. Each method is proved to produce the `HostSpec` function of the old state.
- `popup.dfy` (module `Popup`): the popup geometry as written, and a corrected version.
- `rust_str.dfy` (module `RustStr`): `str::trim` and `str::to_uppercase`.
- `web_client.dfy` (module `WebClient`): header parsing, method mapping and the order of the two checks.

`liveHandles` stands for `Arc::weak_count` of the cancellation flag, i.e. the number of worker threads still holding a handle. Each r/R press hands out one handle. A worker that ends drops its handle (`Host.WorkerExited`). The worker sends nothing when it ends, so the event loop's input is modelled as a sequence of `Input`s: an event received on the channel, or `WorkerEnds` for a worker that stopped by itself. In this way the count in `Run` follows the live workers, and not the number of r/R presses. The busy-wait behind y/Y is taken as one step: while any handle is live the flag is raised, and afterwards no handle is live. The screen draw is counted in `Host.draws`. The progress value is an `f64` in the program and is kept as an opaque `real` here, because the host only stores it.

## Model

| member | source | states |
|---|---|---|
| AppState.Discriminant | terminal-ui/src/app/state.rs:15-26 | every tab's discriminant is below 4 |
| AppState.FromRepr | terminal-ui/src/app/state.rs:15-26 | `from_repr(i)` is defined exactly when `i < 4`, and then yields the tab with discriminant `i` |
| AppState.FromReprDiscriminant | terminal-ui/src/app/state.rs:15-26 | `from_repr(t as usize) == Some(t)` for every tab |
| AppState.DiscriminantInjective | terminal-ui/src/app/state.rs:15-26 | distinct tabs have distinct discriminants |
| AppState.DefaultTab | terminal-ui/src/app/state.rs:17-19 | the default tab has discriminant 0 (`Tab1`) |
| AppState.Display | terminal-ui/src/app/state.rs:18-25 | a tab displays as "Tab " followed by its discriminant plus one |
| AppState.DisplayInjective | terminal-ui/src/app/state.rs:18-25 | distinct tabs display differently |
| AppState.AllTabs | terminal-ui/src/app/state.rs:15-26 | iteration yields 4 tabs, the i-th having discriminant i |
| AppState.AllTabsAtDiscriminant | terminal-ui/src/app/state.rs:15-26 | the tab at position `t as usize` of the iteration is `t` |
| AppState.HostStateCases | terminal-ui/src/app/state.rs:8-13 | the lifecycle has exactly the three states |
| AppState.EventCases | terminal-ui/src/app/state.rs:3-6 | an event is exactly one of a key input and a progress report |
| HostSpec.NextTab | terminal-ui/src/app/render.rs:116-121 | Right sets the tab index to min(i+1, 3); the `unwrap` of the current index cannot fail |
| HostSpec.PrevTab | terminal-ui/src/app/render.rs:123-128 | Left sets the tab index to max(i-1, 0); the `unwrap` of the current index cannot fail |
| HostSpec.OnRunningKey | terminal-ui/src/app/render.rs:92-134 | a non-press key changes nothing; no key in `Running` completes the host or changes the progress; at most one handle is added |
| HostSpec.OnShutdownKey | terminal-ui/src/app/render.rs:71-90 | a non-press key changes nothing; tab and progress never change; completing leaves no live handle and raises the flag if one was live |
| HostSpec.OnEvent | terminal-ui/src/app/render.rs:54-61 | a progress report stores its value and keeps state and tab; a key never changes the progress |
| HostSpec.WalkInRange | terminal-ui/src/app/render.rs:116-128 | the reference walk (Right steps up, Left steps down, clamped, other events stay put) never leaves [0, 3] |
| HostSpec.ArrowPressesWalk | terminal-ui/src/app/render.rs:116-128 | any sequence of arrow presses in `Running` moves the tab along the clamped walk and changes nothing else |
| HostSpec.RepeatedRight | terminal-ui/src/app/render.rs:116-121 | n Right presses give index min(i+n, 3): the last tab does not wrap to the first |
| HostSpec.RepeatedLeft | terminal-ui/src/app/render.rs:123-128 | n Left presses give index max(i-n, 0): the first tab does not wrap to the last |
| HostSpec.SelectedTitleIsSelectedTab | terminal-ui/src/app/render.rs:246-256 | the strip title at the selected index is the selected tab's own title |
| HostSpec.NonPressIgnored | terminal-ui/src/app/render.rs:71-94 | release and repeat events change nothing in any state |
| HostSpec.QuitAsksConfirmation | terminal-ui/src/app/render.rs:95-97 | q/Q in `Running` moves to `ShuttingDown` and changes nothing else |
| HostSpec.CancelSetsFlag | terminal-ui/src/app/render.rs:99-101 | c/C in `Running` raises the flag and changes nothing else |
| HostSpec.RunSpawnsWorker | terminal-ui/src/app/render.rs:103-114 | r/R in `Running` leaves the flag false whatever it was, adds exactly one handle, and changes nothing else |
| HostSpec.UnlistedRunningKeyIgnored | terminal-ui/src/app/render.rs:92-134 | in `Running` a press of any other key is a no-op |
| HostSpec.DeclineReturnsToRunning | terminal-ui/src/app/render.rs:84 | n/N in `ShuttingDown` returns to `Running` with everything else as before |
| HostSpec.QuitThenDeclineRestores | terminal-ui/src/app/render.rs:84-97 | q then n from `Running` restores exactly the prior state, tab and progress |
| HostSpec.ConfirmCompletes | terminal-ui/src/app/render.rs:74-82 | y/Y in `ShuttingDown` completes with no live handle; the flag is forced true when a handle was live |
| HostSpec.UnlistedShutdownKeyIgnored | terminal-ui/src/app/render.rs:71-90 | in `ShuttingDown` a press of any key other than y/Y/n/N is a no-op |
| HostSpec.CompletedOnlyByConfirm | terminal-ui/src/app/render.rs:53-90 | `Completed` is reached only from `ShuttingDown` by a y/Y press, and then with no live handle |
| HostSpec.ProgressStoredVerbatim | terminal-ui/src/app/render.rs:60 | a progress report is stored unclamped in every state and changes nothing else |
| HostSpec.CompletedIgnoresKeys | terminal-ui/src/app/render.rs:55-56 | in `Completed` key events change nothing |
| HostSpec.ReplayProgress | terminal-ui/src/app/render.rs:53-63 | after any events the stored progress is the last reported one, or the initial one if none was reported |
| HostSpec.ProgressReportsKeepStateAndTab | terminal-ui/src/app/render.rs:60 | a run of progress reports never changes state, tab, flag or handle count |
| HostSpec.TraceArrivals | terminal-ui/src/app/render.rs:53-63 | when no worker ends by itself, the loop's inputs replay exactly as the received events, with one draw each |
| HostSpec.WorkerEndsDropsOneHandle | terminal-ui/src/main.rs:26-37 | a worker that ends while holding a handle removes exactly one handle and changes nothing else |
| HostSpec.ConfirmFlagFollowsLiveWorkers | terminal-ui/src/app/render.rs:71-80 | from a new host, r, the worker ending, q, y completes with the flag clear; r, q, y without the worker ending completes with the flag raised |
| HostApp.Host.constructor | terminal-ui/src/app/render.rs:35-45 | a new host is `Running` on `Tab1`, with progress 0, the flag clear and no handle |
| HostApp.Host.HandleKeyEvent | terminal-ui/src/app/render.rs:92-134 | the in-place update equals `OnRunningKey` of the old fields |
| HostApp.Host.HandleShouldExit | terminal-ui/src/app/render.rs:71-90 | the in-place update equals `OnShutdownKey` of the old fields; completing leaves no live handle |
| HostApp.Host.HandleEvent | terminal-ui/src/app/render.rs:54-61 | the in-place update equals `OnEvent` of the old fields |
| HostApp.Host.WorkerExited | terminal-ui/src/main.rs:26-37 | a worker that ends removes exactly one handle and changes nothing else |
| HostApp.Host.Run | terminal-ui/src/app/render.rs:53-63 | the loop applies a prefix of the inputs in order, draws once per received event (not when a worker ends), and stops exactly when the state becomes `Completed` |
| Popup.CenteredOffset | terminal-ui/src/app/render.rs:306-315 | a coordinate is defined exactly when its `u16` subtraction and addition stay in range, and its `> 0` fallback yields the main branch's value |
| Popup.ConfirmPopup | terminal-ui/src/app/render.rs:304-315 | width is (len+4) mod 2^16, height 3, x and y are the centred positions, defined exactly when nothing overflows |
| Popup.ConfirmPopupDefinedIff | terminal-ui/src/app/render.rs:304-315 | inside the `u16` coordinate space the popup is defined exactly when width/2 <= area.width/2 and area.height >= 2 |
| Popup.ConfirmPopupInsideArea | terminal-ui/src/app/render.rs:304-315 | a popup that fits lies inside the area |
| Popup.ConfirmPopupCentered | terminal-ui/src/app/render.rs:304-310 | the left and right margins differ by at most one cell |
| Popup.NarrowAreaPanics | terminal-ui/src/app/render.rs:304-310 | the 30-byte exit message in a body area 20 cells wide underflows |
| Popup.ClampedPopup | terminal-ui/src/app/render.rs:304-315 | the corrected popup is defined for every area, never starts outside it, and agrees with `ConfirmPopup` wherever that is defined |
| RustStr.TrimStart | terminal-web-client/src/main.rs:42 | the result is a suffix of the input; only whitespace was removed; it does not start with whitespace |
| RustStr.TrimEnd | terminal-web-client/src/main.rs:42 | the result is a prefix of the input; only whitespace was removed; it does not end with whitespace |
| RustStr.Trim | terminal-web-client/src/main.rs:42 | the result is the slice between the leading and the trailing whitespace, and neither of its ends is whitespace |
| RustStr.TrimOfTrimmed | terminal-web-client/src/main.rs:42 | a string with no whitespace at its ends is its own trim |
| RustStr.TrimIdempotent | terminal-web-client/src/main.rs:42 | trimming twice is trimming once |
| RustStr.ToUpper | terminal-web-client/src/main.rs:59 | on ASCII input, upper-casing keeps the length and upper-cases each letter |
| WebClient.TokenInjective | terminal-web-client/src/main.rs:59-64 | the five method names are distinct |
| WebClient.MatchToken | terminal-web-client/src/main.rs:59-69 | a string is matched exactly when it is one of the five names, and then to the method of that name |
| WebClient.ParseMethod | terminal-web-client/src/main.rs:59-69 | a method string is accepted exactly when its upper-case form is one of the five names, and then maps to that method |
| WebClient.ParseMethodIgnoresCase | terminal-web-client/src/main.rs:59-64 | every ASCII casing of a name is accepted as that method |
| WebClient.ParseMethodRejects | terminal-web-client/src/main.rs:59-69 | an ASCII string is rejected exactly when it spells none of the five names in any casing |
| WebClient.ParseMethodAcceptsExamples | terminal-web-client/src/main.rs:59-64 | "get", "Patch" and "dElEtE" are accepted as GET, PATCH and DELETE |
| WebClient.ParseMethodRejectsExamples | terminal-web-client/src/main.rs:65-68 | "head" and "" are rejected |
| WebClient.SplitAtFirstColon | terminal-web-client/src/main.rs:38-41 | a split exists exactly when there is a colon; the name part holds no colon and name, colon and value rebuild the header |
| WebClient.SplitAtFirstColonUnique | terminal-web-client/src/main.rs:38-41 | any colon-free prefix followed by a colon is the split, so further colons stay in the value |
| WebClient.CollectKeys | terminal-web-client/src/main.rs:35-42 | the map's names are exactly the inserted names |
| WebClient.CollectLastWins | terminal-web-client/src/main.rs:35-42 | a name maps to the value of the last pair inserted with that name |
| WebClient.HeaderLastWins | terminal-web-client/src/main.rs:35-42 | among headers with the same trimmed name, the map keeps the last one's trimmed value |
| WebClient.ParseHeaders | terminal-web-client/src/main.rs:35-50 | succeeds exactly when every header has a colon, with the collected map; otherwise fails on the first header without one |
| WebClient.EmptyNameAccepted | terminal-web-client/src/main.rs:38-42 | ":v" is accepted and maps "" to "v" |
| WebClient.LaterColonsStayInValue | terminal-web-client/src/main.rs:38-42 | " Host : a:b " gives name "Host" and value "a:b" |
| WebClient.NoColonMalformed | terminal-web-client/src/main.rs:44-46 | a header without a colon is malformed |
| WebClient.PrepareRequest | terminal-web-client/src/main.rs:35-69 | a malformed header ends the program even when the method is also unsupported, and the one reported is the first header without a colon; success exactly when both checks pass, with the parsed method and header map |

## Left out

- Threads and the channel: the input-reader thread and the `mpsc` channel (render.rs:48-51, 136-145) are concurrency and I/O. `Host.Run` consumes a given sequence of inputs instead. When the events run out before `Completed`, the program would block on the channel, and `Run` returns.
- HostApp.Host.HandleShouldExit: the polling wait on the handle count (render.rs:75-80) is cross-thread polling with sleeps. It is one abstract step in which the flag is raised if any handle is live and the count drops to 0. The model does not capture how long the wait takes, or that it never ends if a worker ignores the flag.
- The background worker (terminal-ui/src/main.rs:26-37) is left out: its `f64` accumulation, sleeps and channel sends are a concurrent worker with floating-point arithmetic. Only its end is modelled, as the `WorkerEnds` input that `Host.Run` applies through `Host.WorkerExited`. When it ends is left open: any position in the input sequence. Its `upgrade().unwrap()`, which can panic, is not modelled.
- The progress value is an opaque `real`; `f64` rounding is not modelled.
- Screen drawing, layout and widgets (render.rs:148-290), and `terminal.draw` errors: these are foreign library calls. Drawing is counted in `Host.draws`. The `?` on the key handlers is not modelled, since they always return `Ok`.
- `main` of the UI (terminal-ui/src/main.rs:16-23), which sets up and restores the terminal, is I/O.
- terminal-ui/src/app/tasks.rs only declares a trait signature and has no behaviour.
- Key events carry modifiers and state; the host ignores them, and so does the model. Every key code other than characters and the two arrows is `OtherKey(id)`.
- The web client's argument parsing (clap), HTTP client and async runtime (reqwest, tokio), the URL, the body, the send and the response handling: these are library and network calls. The error messages are printed to stderr, and `main` then returns `Ok(())` (main.rs:46, 67), so the process still exits with status 0. The model returns these early exits as `Err` values. An `Err` here stands for "printed a message and stopped", not for a failing exit status.
- RustStr.ToUpper: it follows `to_uppercase` only as far as deciding a match against the five ASCII names. ASCII letters are upper-cased. So are the non-ASCII characters whose upper-case form is pure ASCII: dotless i, long s, sharp s and the ligatures U+FB00 to U+FB06. Every other character is kept as it is. Its real upper-case form contains a non-ASCII character, so the match verdict is the same.
- The `usize` overflow of the message length plus 4, and of the tab index plus 1, cannot happen in practice. The model uses unbounded naturals there.

## Findings

| source | as written | input that shows it | evidently intended | confidence | as-written member | corrected member |
|---|---|---|---|---|---|---|
| terminal-ui/src/app/render.rs:306-307 | half the body width minus half the popup width is computed in `u16`, before the `> 0` test meant to fall back to the area's edge | body area 20 cells wide, 10 high: the 30-byte exit message gives width 34, and 10 - 17 underflows, which panics while drawing in a debug build (a release build wraps) | a saturating subtraction, so that a popup wider than the area starts at the area's edge | not executed; follows from Rust's debug-build overflow checks | Popup.NarrowAreaPanics | Popup.ClampedPopup |
