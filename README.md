# Click-game session, modelled in Dafny

This project models the browser side of a ten-second click game. Its core
is the game session in `frontend/js/game.js`:

- the global `gameState` record (`isPlaying`, `clicks`, `timeLeft`, `timer`, `username`);
- the handlers that change it: `startGame`, `handleClick`, the interval callback armed by `startTimer`, `endGame`, and the `.then` of `submitScoreAndHandleResult`;
- the control-flag part of `resetGameUI`;
- the pure helper `getApiUrl`, which picks the backend's base URL.

## Modules

- `Common`: `Option`, standing for JavaScript's `null`.
- `Text`: the three string operations the code relies on:
  - `String.prototype.trim` (ECMAScript white space);
  - `replace` with a string pattern (first occurrence only);
  - `replace(/:\d+$/, …)`.
- `ApiUrl`: `getApiUrl` as a function of the override, hostname, port and origin. Its contract gives the whole resolution order.
- `Session`: the page as a value, `Session.State`. It holds:
  - the five `gameState` fields;
  - the name box and the disabled flags of the start button and the name box;
  - the status banner;
  - the browser's live intervals (`armed`) and the interval-id counter;
  - the pending `setTimeout` callbacks (the pre-roll and the achievement notifications);
  - the score submissions still in flight;
  - an effect log of the presentation side effects (sounds, particles, shake, alerts, refreshes), one tag each.

  Each browser event is a function of the state with a contract that gives the whole new state. The `forEach` that schedules notifications is a method with a loop, proved against its specification `Session.Schedule`.
- `SessionProps`: properties of runs of several events:
  - how long a game lasts;
  - how clicks add up;
  - clicks during the pre-roll;
  - what the missing "busy" guard and the leaked interval lead to;
  - a complete game from Enter to the answered submission.
- `Page`: the imperative form. `Page.Game` is a class whose fields are the same state. Each handler updates the fields in place, in the order the script does. Each handler is proved to leave exactly the state the matching `Session` function gives, so every `SessionProps` result holds of the page object too.

Events that come from outside are explicit inputs:

- A click, Enter in the name box, the start button and typing in the name box are calls.
- One run of a given interval's callback is `Tick`. The username prompt's answer is a parameter of `Tick` and `EndGame`. The prompt is shown synchronously inside the promise executor, and its `.then` runs as a microtask before any other event, so the answer can be taken at that point.
- A pending timeout firing is `Fire` / `FireTimeout`.
- The arrival of a submission's response is `Resolve` / `ResolveSubmission`. Its outcome is an input: `None` when `submitScore` resolved to `null` after its alert, otherwise the response's achievement list (empty when it has none).

Behaviour kept as the code has it:

- **The start button takes the auto-start path.** Its listener is `startGame` itself (game.js:181), so the click event arrives as the truthy `autoStart`. The button therefore starts a game at once, with no name check and no pre-roll, and does not look at `isPlaying`. Only Enter in the name box (game.js:185-189) makes an explicit start.
- **Clicks during the "GET READY" pre-roll count.** `isPlaying` is set before the interval is armed.
- **There is no "busy" guard.** A click after a game ended starts the next game while the previous score is still in flight. The late response then re-enables the start button mid-game (`SessionProps.StaleResetArmsSecondInterval`).
- **`startTimer` can leak an interval.** Pressing the re-enabled start button arms a second interval without clearing the first.
  - Both intervals fire once a second, the leaked one first, so the clock runs down twice as fast (`SessionProps.Alternate`).
  - The new game ends on the fifth tick of its own interval, which `endGame` clears (`SessionProps.SecondGameEnds`).
  - The leaked interval is never cleared. Each of its later ticks takes `timeLeft` further below zero and runs `endGame` again, which submits the same score once more (`SessionProps.LeakedIntervalKeepsSubmitting`).
  - So `timeLeft` is an `int`, not a `nat`, and `Session.Valid` bounds it only from above.
- **The stored username is never cleared.** It wins over the name box on the next auto-start (`SessionProps.NameCarriesOver`).

## Model

| member | source | states |
|---|---|---|
| Session.Init | frontend/js/game.js:2-8 | The page loads with no game on, zero clicks, ten seconds on the clock, no stored interval, an empty stored name and name box, both controls enabled, an idle banner and no effects. No interval is armed, no timeout pending and no submission in flight, and the session invariant holds (interval ids fresh, no unnamed submission, notification delays by index) |
| Session.StartGame | frontend/js/game.js:198-232 | An explicit start with a blank trimmed name only raises the alert and changes nothing else. A start that goes ahead sets playing, zero clicks, ten seconds and the resolved name (stored name first on an auto-start), whatever the last game left, and disables both controls. An auto-start also arms a new interval and plays the start sound; an explicit start schedules only the pre-roll. The invariant is preserved |
| Session.Launch | frontend/js/game.js:198-229 | The auto-start path in full: the fresh game under the stored name or the name box, a new interval armed and remembered in `timer`, and exactly the start sound emitted |
| Session.Prepare | frontend/js/game.js:198-231 | The explicit path with a name: the fresh game under the trimmed name box, "GET READY", and only the pre-roll added to the pending timeouts; no interval armed |
| Session.StartTimer | frontend/js/game.js:282-283 | A new interval id is armed and stored in `timer`; earlier intervals stay armed; the id is fresh under the invariant |
| Session.AutoStart | frontend/js/game.js:237-243 | The no-game part of a click: the stored name is kept, otherwise the trimmed name box becomes it, and the game starts as an auto-start with the start sound |
| Session.CountClick | frontend/js/game.js:252-278 | One more click and nothing else in the state; the click effect is emitted, followed by a milestone exactly when the new count is a multiple of ten |
| Session.Click | frontend/js/game.js:235-279 | A click while playing adds exactly one click and changes nothing else. A click with no game on auto-starts one (no pre-roll, no busy check) and counts itself, leaving `isPlaying` with one click. The emitted effects are the start sound if it started, the click, and a milestone exactly at multiples of ten |
| Session.Tick | frontend/js/game.js:283-296 | Each tick takes exactly one second off. While time is left nothing else changes, with a warning at three seconds or fewer. The tick that reaches zero or below is exactly `endGame` run after the decrement and the warning: it emits the warning and "game over", stops play, clears only the interval `timer` names, and submits the score under the final name if there is one |
| Session.Expire | frontend/js/game.js:284-294 | The last tick: the warning, then the end of the game with its submission, as above |
| Session.PromptAnswer | frontend/js/game.js:300-305 | The prompt yields "" exactly when it was cancelled or answered with white space only; any other answer yields exactly its trim |
| Session.FinalName | frontend/js/game.js:331-345 | The name `endGame` submits under: the stored name when there is one, else the trimmed name box when it is not blank, else the prompt's answer |
| Session.Cleared | frontend/js/game.js:309 | `clearInterval(gameState.timer)` removes the interval `timer` names and keeps every other armed interval |
| Session.NewGame | frontend/js/game.js:208-219 | The reset assignments of `startGame`: playing, zero clicks, ten seconds, the given name and banner, both controls disabled, nothing else changed; the invariant is preserved |
| Session.ResetGameUI | frontend/js/game.js:375-377 | Both controls are enabled and nothing else changes |
| Session.Dequeue | frontend/js/game.js:357 | The answered submission leaves the in-flight list, the others stay in order, and the invariant is preserved |
| Session.Enqueue | frontend/js/game.js:360-364 | The notifications join the pending timeouts after those already there, and the invariant is preserved |
| Session.StopGame | frontend/js/game.js:309-313 | `clearInterval(gameState.timer)` removes only that interval; play stops; "game over" with the count is shown and emitted |
| Session.EndGame | frontend/js/game.js:308-353 | The final name is the stored name, then the trimmed name box, then the prompt's answer. With a final name: it is stored (a prompted one also goes into the name box) and exactly one submission of the count is added. Without one: nothing is submitted, the controls are re-enabled and "not saved" is shown. Only "game over" is emitted; the invariant is preserved |
| Session.SubmitScore | frontend/js/game.js:357 | A submission of the current count under the given name joins those in flight |
| Session.Schedule | frontend/js/game.js:358-365 | One notification per achievement, in list order; achievement `i` gets index `i` and delay `i * 2000` ms; delays strictly increase |
| Session.ScheduleNotifications | frontend/js/game.js:360-364 | The `forEach` loop builds exactly `Schedule(achievements, 0)`: entry `i` has delay `2000 * i` |
| Session.Resolve | frontend/js/game.js:356-372 | The answered submission leaves the in-flight list. Notifications are scheduled for a successful result's achievements (none for a failure or an empty list). Both controls are re-enabled in every case, whatever game is running. Nothing else changes, and the emitted effects are `ResponseEffects` |
| Session.ResponseEffects | frontend/js/game.js:366-369 | The submit-failed alert appears exactly when the request failed; the leaderboard refresh always; the user's achievement refresh exactly when the name is not empty |
| Session.Fire | frontend/js/game.js:226-230 | A pending timeout runs and leaves the list. The pre-roll shows "GO!", arms and stores a new interval and plays the start sound, whether or not a game is still on. An achievement notification only shows that achievement |
| Session.PressEnter | frontend/js/game.js:185-189 | Enter does nothing while a game is on, and is an explicit start otherwise |
| Session.PressStart | frontend/js/game.js:181 | The start button is exactly `startGame(true)`: playing, zero clicks, ten seconds, stored name first, both controls disabled, "GO!", a new interval armed and stored, the start sound as the only effect, nothing submitted or scheduled |
| Session.EditName | frontend/js/game.js:39 | Typing changes only the name box |
| ApiUrl.GetApiUrl | frontend/js/game.js:13-32 | In order: a set override is returned as is; localhost and 127.0.0.1 get the development backend; port 8080 replaces the first ":8080" of the origin by ":8081" (an origin without one comes back unchanged); otherwise a trailing ":<digits>" becomes ":8081", an origin without a port comes back unchanged, and only an empty origin falls back to the development backend. The result is empty only for port 8080 on an empty origin |
| ApiUrl.Port8080MatchesPortRewrite | frontend/js/game.js:27-31 | For an origin that ends in its first ":8080", the port-8080 rule and the generic port rewrite give the same URL |
| Text.Trim | frontend/js/game.js:200 | `trim()` is empty exactly for an all-white-space string, and otherwise starts and ends with a character that is not white space |
| Text.TrimSlices | frontend/js/game.js:200 | `trim()` returns a slice of the string with only white space before and after it |
| Text.TrimIdempotent | frontend/js/game.js:239-240 | Trimming a trimmed name changes nothing |
| Text.TrimKeeps | frontend/js/game.js:200 | A name that neither starts nor ends with white space is kept as typed |
| Text.IndexOf | frontend/js/game.js:28 | `indexOf` finds the first occurrence at or after the start position, or -1 when there is none |
| Text.ReplaceFirst | frontend/js/game.js:28 | A string-pattern `replace` replaces only the first occurrence, and leaves a string without one unchanged |
| Text.TrailingDigits | frontend/js/game.js:31 | The length of the longest all-digit suffix, preceded by a non-digit when shorter than the string |
| Text.PortSuffixUnique | frontend/js/game.js:31 | `/:\d+$/` can match at one position at most |
| Text.ReplacePortSuffix | frontend/js/game.js:31 | `replace(/:\d+$/, rep)` cuts the string at the match and appends `rep`; with no match the string is unchanged |
| SessionProps.TicksWhileRunning | frontend/js/game.js:283-291 | Ticks that leave time on the clock change only the clock, and emit no "game over" |
| SessionProps.LastTick | frontend/js/game.js:284-294 | The tick from one second to zero ends the game, clears its interval and emits the last warning and "game over" |
| SessionProps.CountdownEndsAtZero | frontend/js/game.js:283-309 | A game whose interval is `timer` ends after exactly `timeLeft` ticks of it, at zero. The interval is cleared, so later ticks of it change nothing, and the score is submitted under the final name |
| SessionProps.CountdownEndsOnce | frontend/js/game.js:293-294 | Over the whole countdown, "game over" is emitted exactly once, as the last effect |
| SessionProps.ClicksAddUp | frontend/js/game.js:252 | `n` clicks during a game add exactly `n` to the count and change nothing else |
| SessionProps.AutoStartedGameLastsTenTicks | frontend/js/game.js:235-296 | A game auto-started by a click is still on after nine ticks of its interval, ends after ten at zero, and keeps its `n` clicks as the score |
| SessionProps.PrerollClicksCount | frontend/js/game.js:209-230 | After Enter with a name, clicks during the pre-roll count, although no interval is armed yet |
| SessionProps.EnterSchedulesPreroll | frontend/js/game.js:185-231 | Enter with a name and no game resets the game under the trimmed name and schedules only the pre-roll |
| SessionProps.PrerollFires | frontend/js/game.js:226-230 | The pre-roll arms and stores the game's interval and shows "GO!" |
| SessionProps.PrerollStartsClock | frontend/js/game.js:198-230 | Enter followed by the pre-roll: a fresh game with a full clock, the trimmed name and its interval armed |
| SessionProps.ClicksAfterPreroll | frontend/js/game.js:226-252 | Clicks after the pre-roll count, and nothing else about the new game changes |
| SessionProps.ExplicitStartLastsTenTicks | frontend/js/game.js:198-296 | A game started with Enter lasts ten ticks from the pre-roll. Its score is then submitted under the trimmed name, and no other timeout is left behind |
| SessionProps.RestartWhileSubmitting | frontend/js/game.js:237-243 | A click after a game ended starts the next game at once. When the old submission is answered, only the controls change: they are enabled in the middle of the new game |
| SessionProps.StaleResetArmsSecondInterval | frontend/js/game.js:370-377 | After that stale reset, the start button arms a second interval while the first is still armed |
| SessionProps.AlternateEndsGame | frontend/js/game.js:283-296 | With another interval firing before the game's own one every second, a game with `2n` seconds left ends after `n` ticks of its own interval, on that interval's tick, which is cleared; the other interval stays armed and the score is submitted under the final name |
| SessionProps.SecondStart | frontend/js/game.js:181-232 | After the stale reset the start button begins a fresh ten-second game with no clicks, under the stored name, with its own interval stored and the click's interval still armed |
| SessionProps.SecondGameEnds | frontend/js/game.js:283-296 | The restarted game, with the leaked interval ticking first each second, ends after five ticks of its own interval at zero. Its own interval is cleared, the leaked one stays armed, and the score (no clicks) is submitted under the stored name |
| SessionProps.LeakedTick | frontend/js/game.js:282-296 | A tick of a leaked interval after the game ended takes the clock one second further down and runs `endGame` again, submitting the same score again; the leaked interval stays armed |
| SessionProps.LeakedTicksResubmit | frontend/js/game.js:282-309 | `k` such ticks take the clock `k` seconds further down and submit the same score `k` more times; the leaked interval is still armed |
| SessionProps.LeakedIntervalKeepsSubmitting | frontend/js/game.js:283-309 | Together: after the restarted game ends, each of `k` further ticks of the leaked interval resubmits, so the same score is sent `k + 1` times |
| SessionProps.NameCarriesOver | frontend/js/game.js:200 | The stored name outlives the game: the next auto-started game keeps it whatever the name box says |
| SessionProps.PlainSuccess | frontend/js/game.js:356-372 | A successful submission without achievements schedules nothing, requests both refreshes and re-enables the controls |
| SessionProps.FullGame | frontend/js/game.js:198-372 | A full game: a name in the box, Enter, the pre-roll, `n` clicks and ten ticks submit `n` under the trimmed name. The answer without achievements then schedules nothing, requests both refreshes and re-enables the controls |
| Page.Game.constructor | frontend/js/game.js:2-8 | The page object starts as `Session.Init` |
| Page.Game.EditName | frontend/js/game.js:39 | Typing updates the name box in place as `Session.EditName` says |
| Page.Game.PressEnter | frontend/js/game.js:185-189 | The keypress listener updates the fields as `Session.PressEnter` says |
| Page.Game.PressStart | frontend/js/game.js:181 | The start button's listener updates the fields as `Session.PressStart` says |
| Page.Game.StartGame | frontend/js/game.js:198-232 | `startGame` updates the fields in place as `Session.StartGame` says |
| Page.Game.NewGame | frontend/js/game.js:208-219 | The reset assignments of `startGame`, as `Session.NewGame` says |
| Page.Game.StartTimer | frontend/js/game.js:282-283 | `startTimer` arms and stores a new interval as `Session.StartTimer` says |
| Page.Game.Click | frontend/js/game.js:235-279 | `handleClick` updates the fields in place as `Session.Click` says |
| Page.Game.AutoStart | frontend/js/game.js:237-243 | The no-game branch of `handleClick` is `Session.AutoStart` |
| Page.Game.CountClick | frontend/js/game.js:252-278 | `gameState.clicks++` and its effects are `Session.CountClick` |
| Page.Game.Tick | frontend/js/game.js:283-296 | The interval callback updates the fields in place as `Session.Tick` says |
| Page.Game.RunDown | frontend/js/game.js:284-291 | A tick that leaves time: the decrement, and the warning from three seconds down, as in `Session.Tick` |
| Page.Game.Expire | frontend/js/game.js:284-294 | The last tick: the warning, then `endGame` on the fields, as in `Session.Expire` |
| Page.Game.CountDown | frontend/js/game.js:284-290 | The decrement and the warning of the last tick |
| Page.Game.EndGame | frontend/js/game.js:308-353 | `endGame` updates the fields in place as `Session.EndGame` says |
| Page.Game.Prompted | frontend/js/game.js:335-345 | The prompt's `.then`: store the name in both places and submit, or re-enable the controls and show "not saved" |
| Page.Game.Submit | frontend/js/game.js:348-351 | A known name is stored and the score submitted under it |
| Page.Game.StopGame | frontend/js/game.js:309-313 | The start of `endGame` is `Session.StopGame` |
| Page.Game.SubmitScore | frontend/js/game.js:357 | The request leaves as `Session.SubmitScore` says |
| Page.Game.ResetGameUI | frontend/js/game.js:375-377 | Both controls are enabled in place, as `Session.ResetGameUI` says |
| Page.Game.ResolveSubmission | frontend/js/game.js:356-372 | The response callback, with its `forEach` loop, updates the fields as `Session.Resolve` says |
| Page.Game.Dequeue | frontend/js/game.js:357 | The answered submission leaves the in-flight list |
| Page.Game.Enqueue | frontend/js/game.js:360-364 | The notifications join the pending timeouts |
| Page.Game.FireTimeout | frontend/js/game.js:226-230 | A pending timeout runs and updates the fields as `Session.Fire` says |

## Left out

- `backend/main.go`: the HTTP server, its PostgreSQL queries, routing and CORS are not part of this model. The client sees only its answers, as inputs.
- `playSound`, the particles, the shake animation and the click animation's `setTimeout`: Web Audio, `Math.random` and CSS. They appear only as tags in the effect log. The end-of-game sounds and particle bursts are represented by the one "game over" tag.
- `submitScore`, `loadLeaderboard`, `loadAllAchievements`, `loadUserAchievements`: network I/O. Their outcome is an input of `Resolve`, and the refreshes are effect tags.
- `displayLeaderboard`, `displayAllAchievements`, `showAchievementNotification`, `escapeHtml`: DOM rendering; a notification is the tag `AchievementShown`.
- The text of `clickCount`, `timer` and the status line is not modelled beyond the banner kind. Nor are the timer's colour and animation, which `resetGameUI` also resets.
- `initGame`'s initial loads and the 30-second leaderboard polling: network-only timers that never touch the session state.
- Wall-clock time: intervals, the one-second pre-roll and notification delays are discrete events. A notification's delay is recorded, but the order in which pending timeouts fire is the caller's choice. Two intervals with the same period are taken to fire alternately, the one armed first going first (`SessionProps.Alternate`); other interleavings of ticks and other events are the caller's choice.
- The second `isPlaying` check in `handleClick` (game.js:247-249): after `startGame(true)` the game is always on, so the branch cannot run and has no counterpart.
- The `window.location` and `window.BACKEND_URL` reads in `getApiUrl` are parameters. A falsy `BACKEND_URL` is represented by "".
- Strings are sequences of characters; `trim` removes ECMAScript's white space and line terminators, and there is no Unicode normalisation.
