/**
 * The client-side game session as values: one `State` holding the global
 * `gameState` record, the page controls the session reads and writes, the
 * browser timers it has armed, the score submissions still in flight and the
 * presentation side effects it has emitted. Each browser event is a function
 * from the state before to the state after; `Page.Game` runs the same events
 * imperatively and is proved to agree with these functions.
 *
 * Timers are not clocks here: a `setInterval` is an id in `armed` whose
 * callback (`Tick`) may run while the id stays armed, and a `setTimeout` is an
 * entry of `timeouts` whose callback (`Fire`) runs once, in any order the
 * environment chooses. The username prompt and the fetch outcome are inputs of
 * the events that consume them.
 */
module Session {
  import opened Common
  import opened Text

  /** Seconds on the clock when a game starts. */
  const GameSeconds: int := 10
  /** A tick that leaves this many seconds or fewer warns the player. */
  const LowTimeThreshold: int := 3
  /** Every click whose new count is a multiple of this is a milestone. */
  const MilestoneEvery: nat := 10
  /** Milliseconds between two achievement notifications. */
  const NotificationGap: nat := 2000

  /** An achievement descriptor as the backend returns it (its CPS bounds are not used here). */
  datatype Achievement = Achievement(name: string, description: string, icon: string, color: string)

  /** A `setTimeout` callback that has not run yet. */
  datatype Timeout =
    | Preroll                                                           // "GET READY": arm the interval
    | ShowAchievement(achievement: Achievement, index: nat, delay: nat) // one unlock notification

  /** A `POST /api/scores` whose response has not arrived yet. */
  datatype Submission = Submission(username: string, clicks: nat)

  /** What the status line shows. */
  datatype Banner = Idle | GetReady | Go | Over(clicks: nat) | NotSaved

  /** Presentation side effects, as tags for an outside observer. */
  datatype Effect =
    | NameRequired                            // alert: no name for an explicit start
    | StartSound                              // the "GO!" beep
    | Clicked(clicks: nat)                    // counter shown, click sound and particle
    | Milestone(clicks: nat)                  // shake and milestone sound
    | Warning(timeLeft: int)                  // red pulsing timer and warning sound
    | GameOver(clicks: nat)                   // game-over jingle and particle burst
    | SubmitFailed                            // alert: the score could not be submitted
    | LeaderboardRefresh                      // loadLeaderboard()
    | UserAchievementsRefresh(username: string) // loadUserAchievements(name)
    | AchievementShown(achievement: Achievement)

  datatype State = State(
    // gameState
    isPlaying: bool,
    clicks: nat,
    timeLeft: int,
    timer: Option<nat>,           // the id of the interval startTimer armed last
    username: string,
    // page controls
    input: string,                // the name box's value
    startDisabled: bool,
    inputDisabled: bool,
    banner: Banner,
    // browser bookkeeping
    armed: set<nat>,              // intervals that are still firing
    nextTimer: nat,               // the id the next setInterval returns
    timeouts: seq<Timeout>,
    inFlight: seq<Submission>,
    log: seq<Effect>)

  /** The page as it loads. */
  function Init(): (s: State)
    ensures Valid(s) && !s.isPlaying && s.armed == {} && s.inFlight == [] && s.timeouts == []
    ensures s.clicks == 0 && s.timeLeft == GameSeconds && s.timer == None && s.username == ""
    ensures s.input == "" && !s.startDisabled && !s.inputDisabled && s.banner == Idle && s.log == []
  {
    State(false, 0, GameSeconds, None, "", "", false, false, Idle, {}, 0, [], [], [])
  }

  /** Every interval id handed out so far is below `nextTimer`, so a new one is fresh. */
  ghost predicate TimerIdsBelow(armed: set<nat>, timer: Option<nat>, nextTimer: nat) {
    && (forall id :: id in armed ==> id < nextTimer)
    && (timer.Some? ==> timer.value < nextTimer)
  }

  /** No score is ever sent without a name. */
  ghost predicate AllNamed(inFlight: seq<Submission>) {
    forall k :: 0 <= k < |inFlight| ==> inFlight[k].username != ""
  }

  /** Notification `i` of a submission waits `i * NotificationGap` ms. */
  ghost predicate DelaysByIndex(timeouts: seq<Timeout>) {
    forall k :: 0 <= k < |timeouts| && timeouts[k].ShowAchievement? ==>
                  timeouts[k].delay == NotificationGap * timeouts[k].index
  }

  /** What every reachable state satisfies. */
  ghost predicate Valid(s: State) {
    && TimerIdsBelow(s.armed, s.timer, s.nextTimer)
    && s.timeLeft <= GameSeconds   // the clock starts at GameSeconds and only counts down
    && AllNamed(s.inFlight)
    && DelaysByIndex(s.timeouts)
  }

  /** `r` continues the effect log of `s`. */
  predicate Extends(s: State, r: State) {
    |s.log| <= |r.log| && r.log[..|s.log|] == s.log
  }

  /** The effects emitted on the way from `s` to `r`. */
  function Emitted(s: State, r: State): seq<Effect>
    requires Extends(s, r)
  {
    r.log[|s.log|..]
  }

  function Emit(s: State, fx: seq<Effect>): (r: State)
    ensures r == s.(log := s.log + fx)
    ensures Extends(s, r) && Emitted(s, r) == fx
  {
    var r := s.(log := s.log + fx);
    assert r.log[..|s.log|] == s.log;
    r
  }

  /** Emitted effects compose along a run of events. */
  lemma EmittedChain(a: State, b: State, c: State)
    requires Extends(a, b) && Extends(b, c)
    ensures Extends(a, c) && Emitted(a, c) == Emitted(a, b) + Emitted(b, c)
  {
    assert c.log[..|a.log|] == c.log[..|b.log|][..|a.log|];
    assert c.log[|a.log|..] == c.log[|a.log|..|b.log|] + c.log[|b.log|..];
  }

  /** `startTimer()`: arm a new interval and remember its id, without clearing the previous one. */
  function StartTimer(s: State): (r: State)
    ensures Valid(s) ==> Valid(r) && s.nextTimer !in s.armed
    ensures r == s.(armed := s.armed + {s.nextTimer}, timer := Some(s.nextTimer), nextTimer := s.nextTimer + 1)
  {
    s.(armed := s.armed + {s.nextTimer}, timer := Some(s.nextTimer), nextTimer := s.nextTimer + 1)
  }

  /** The control-flag part of `resetGameUI()`. */
  function ResetGameUI(s: State): (r: State)
    ensures !r.startDisabled && !r.inputDisabled
    ensures r == s.(startDisabled := r.startDisabled, inputDisabled := r.inputDisabled)
  {
    s.(startDisabled := false, inputDisabled := false)
  }

  /** `submitScore(name, gameState.clicks)` sends the request; its outcome arrives with `Resolve`. */
  function SubmitScore(s: State, name: string): (r: State)
    ensures Valid(s) && name != "" ==> Valid(r)
    ensures r == s.(inFlight := s.inFlight + [Submission(name, s.clicks)])
  {
    s.(inFlight := s.inFlight + [Submission(name, s.clicks)])
  }

  /** What the username prompt yields: the trimmed answer, "" when it was cancelled or blank. */
  function PromptAnswer(answer: Option<string>): (name: string)
    ensures name == "" <==> answer.None? || AllSpace(answer.value)
    ensures answer.Some? && !AllSpace(answer.value) ==> name == Trim(answer.value)
  {
    match answer
    case None => ""
    case Some(v) => Trim(v)
  }

  /**
   * `startGame(autoStart)`. An explicit start takes the trimmed name box and
   * refuses an empty one; an auto-start prefers the stored name and accepts an
   * empty one. A start that goes ahead resets the game whatever the previous
   * one left behind; an auto-start arms the interval at once, an explicit
   * start only after the pre-roll.
   */
  function StartGame(s: State, autoStart: bool): (r: State)
    ensures Valid(s) ==> Valid(r)
    ensures Extends(s, r)
    // explicit start without a name: an alert and nothing else
    ensures !autoStart && Trim(s.input) == "" ==> r == s.(log := s.log + [NameRequired])
    // an auto-start: the stored name wins, the interval is armed at once
    ensures autoStart ==>
      && r == s.(isPlaying := true, clicks := 0, timeLeft := GameSeconds,
                 username := if s.username != "" then s.username else Trim(s.input),
                 startDisabled := true, inputDisabled := true, banner := Go,
                 armed := s.armed + {s.nextTimer}, timer := Some(s.nextTimer),
                 nextTimer := s.nextTimer + 1, log := r.log)
      && Emitted(s, r) == [StartSound]
    // an explicit start with a name: the trimmed name box, and only the pre-roll is scheduled
    ensures !autoStart && Trim(s.input) != "" ==>
      r == s.(isPlaying := true, clicks := 0, timeLeft := GameSeconds, username := Trim(s.input),
              startDisabled := true, inputDisabled := true, banner := GetReady,
              timeouts := s.timeouts + [Preroll])
  {
    if autoStart then Launch(s)
    else if Trim(s.input) == "" then Emit(s, [NameRequired])
    else Prepare(s)
  }

  /** An auto-start: a fresh game under the stored name (else the name box), its interval armed at once. */
  function Launch(s: State): (r: State)
    ensures Valid(s) ==> Valid(r)
    ensures r == s.(isPlaying := true, clicks := 0, timeLeft := GameSeconds,
                    username := if s.username != "" then s.username else Trim(s.input),
                    startDisabled := true, inputDisabled := true, banner := Go,
                    armed := s.armed + {s.nextTimer}, timer := Some(s.nextTimer),
                    nextTimer := s.nextTimer + 1, log := r.log)
    ensures Extends(s, r) && Emitted(s, r) == [StartSound]
  {
    Emit(StartTimer(NewGame(s, if s.username != "" then s.username else Trim(s.input), Go)), [StartSound])
  }

  /** An explicit start with a name: a fresh game under the trimmed name box, waiting for its pre-roll. */
  function Prepare(s: State): (r: State)
    ensures Valid(s) ==> Valid(r)
    ensures r == s.(isPlaying := true, clicks := 0, timeLeft := GameSeconds, username := Trim(s.input),
                    startDisabled := true, inputDisabled := true, banner := GetReady,
                    timeouts := s.timeouts + [Preroll])
  {
    var s1 := NewGame(s, Trim(s.input), GetReady);
    s1.(timeouts := s1.timeouts + [Preroll])
  }

  /** The reset part of `startGame`: a fresh game under `name`, controls disabled. */
  function NewGame(s: State, name: string, banner: Banner): (r: State)
    ensures Valid(s) ==> Valid(r)
    ensures r == s.(isPlaying := true, clicks := 0, timeLeft := GameSeconds, username := name,
                    startDisabled := true, inputDisabled := true, banner := banner)
  {
    s.(username := name, isPlaying := true, clicks := 0, timeLeft := GameSeconds,
       banner := banner, startDisabled := true, inputDisabled := true)
  }

  /** `gameState.clicks++` and the click's presentation. */
  function CountClick(s: State): (r: State)
    ensures Valid(s) ==> Valid(r)
    ensures r == s.(clicks := s.clicks + 1, log := r.log)
    ensures Extends(s, r)
    ensures Emitted(s, r) == [Clicked(r.clicks)] + (if r.clicks % MilestoneEvery == 0 then [Milestone(r.clicks)] else [])
  {
    var n := s.clicks + 1;
    Emit(s.(clicks := n), [Clicked(n)] + (if n % MilestoneEvery == 0 then [Milestone(n)] else []))
  }

  /** The first half of `handleClick` when no game is on: take the name box if no name is stored, then `startGame(true)`. */
  function AutoStart(s: State): (r: State)
    ensures Valid(s) ==> Valid(r)
    ensures r == s.(isPlaying := true, clicks := 0, timeLeft := GameSeconds,
                    username := if s.username != "" then s.username else Trim(s.input),
                    startDisabled := true, inputDisabled := true, banner := Go,
                    armed := s.armed + {s.nextTimer}, timer := Some(s.nextTimer),
                    nextTimer := s.nextTimer + 1, log := r.log)
    ensures Extends(s, r) && Emitted(s, r) == [StartSound]
  {
    var s0 := if s.username == "" && Trim(s.input) != "" then s.(username := Trim(s.input)) else s;
    var r := StartGame(s0, true);
    assert s0.log == s.log;
    r
  }

  /**
   * A click on the big button (`handleClick`). While playing it adds exactly
   * one click and changes nothing else; otherwise it auto-starts a game
   * (no pre-roll, no check for a submission still in flight) and counts
   * itself as that game's first click. Every click is shown, and it is a
   * milestone exactly when the new count is a multiple of ten.
   */
  function Click(s: State): (r: State)
    ensures Valid(s) ==> Valid(r)
    ensures Extends(s, r)
    ensures r.isPlaying
    ensures s.isPlaying ==> r == s.(clicks := s.clicks + 1, log := r.log)
    ensures !s.isPlaying ==>
      r == s.(isPlaying := true, clicks := 1, timeLeft := GameSeconds,
              username := if s.username != "" then s.username else Trim(s.input),
              startDisabled := true, inputDisabled := true, banner := Go,
              armed := s.armed + {s.nextTimer}, timer := Some(s.nextTimer),
              nextTimer := s.nextTimer + 1, log := r.log)
    ensures Emitted(s, r) == (if s.isPlaying then [] else [StartSound]) + [Clicked(r.clicks)]
                             + (if r.clicks % MilestoneEvery == 0 then [Milestone(r.clicks)] else [])
  {
    if s.isPlaying then
      var r := CountClick(s);
      assert Emitted(s, r) == [] + Emitted(s, r);
      r
    else
      var s1 := AutoStart(s);
      var r := CountClick(s1);
      assert r.clicks == 1 && Emitted(s1, r) == [Clicked(1)];
      EmittedChain(s, s1, r);
      r
  }

  /** The name `endGame` submits under: stored name, then the name box, then the prompt. */
  function FinalName(s: State, answer: Option<string>): (name: string)
    ensures s.username != "" ==> name == s.username
    ensures s.username == "" && !AllSpace(s.input) ==> name == Trim(s.input)
    ensures s.username == "" && AllSpace(s.input) ==> name == PromptAnswer(answer)
  {
    if s.username != "" then s.username
    else if Trim(s.input) != "" then Trim(s.input)
    else PromptAnswer(answer)
  }

  /** The live intervals after `clearInterval(gameState.timer)`: only the one `timer` names goes. */
  function Cleared(s: State): (live: set<nat>)
    ensures live <= s.armed
    ensures forall id :: id in s.armed && s.timer != Some(id) ==> id in live
    ensures s.timer.Some? ==> s.timer.value !in live
  {
    if s.timer.Some? then s.armed - {s.timer.value} else s.armed
  }

  /** The part of `endGame()` before the name is resolved. */
  function StopGame(s: State): (r: State)
    ensures Valid(s) ==> Valid(r)
    ensures r == s.(armed := Cleared(s), isPlaying := false, banner := Over(s.clicks), log := r.log)
    ensures Extends(s, r) && Emitted(s, r) == [GameOver(s.clicks)]
  {
    Emit(s.(armed := Cleared(s), isPlaying := false, banner := Over(s.clicks)), [GameOver(s.clicks)])
  }

  /**
   * `endGame()`: clear the interval `timer` names (only that one), stop
   * playing and submit the final count under the resolved name, which is
   * stored; with no name at all, submit nothing, re-enable the controls and
   * say the score was not saved. The prompt's answer is only consulted when
   * the stored name and the name box are both empty, and a name it supplies
   * is also written into the name box.
   */
  function EndGame(s: State, answer: Option<string>): (r: State)
    ensures Valid(s) ==> Valid(r)
    ensures Extends(s, r) && Emitted(s, r) == [GameOver(s.clicks)]
    ensures FinalName(s, answer) != "" ==>
      r == s.(isPlaying := false, armed := Cleared(s), banner := Over(s.clicks),
              username := FinalName(s, answer),
              input := if s.username == "" && Trim(s.input) == "" then FinalName(s, answer) else s.input,
              inFlight := s.inFlight + [Submission(FinalName(s, answer), s.clicks)], log := r.log)
    ensures FinalName(s, answer) == "" ==>
      r == s.(isPlaying := false, armed := Cleared(s), banner := NotSaved,
              startDisabled := false, inputDisabled := false, log := r.log)
  {
    var s1 := StopGame(s);
    var finalUsername := if s.username != "" then s.username else Trim(s.input);
    if finalUsername == "" then
      var name := PromptAnswer(answer);
      if name != "" then SubmitScore(s1.(username := name, input := name), name)
      else ResetGameUI(s1).(banner := NotSaved)
    else
      SubmitScore(s1.(username := finalUsername), finalUsername)
  }

  /**
   * One run of an armed interval's callback: one second less, a warning at
   * three seconds or fewer, and `endGame` once the clock reaches zero. The
   * callback neither knows nor checks which interval it belongs to.
   */
  function Tick(s: State, id: nat, answer: Option<string>): (r: State)
    requires id in s.armed
    ensures Valid(s) ==> Valid(r)
    ensures Extends(s, r)
    ensures r.timeLeft == s.timeLeft - 1
    ensures r.timeLeft > 0 ==> r == s.(timeLeft := r.timeLeft, log := r.log)
    // the tick that reaches zero runs endGame
    ensures r.timeLeft <= 0 ==>
      && !r.isPlaying && r.clicks == s.clicks && r.timer == s.timer && r.armed == Cleared(s)
      && r.nextTimer == s.nextTimer && r.timeouts == s.timeouts
      && (FinalName(s, answer) != "" ==> r.username == FinalName(s, answer))
      && r.inFlight == s.inFlight + (if FinalName(s, answer) != ""
                                     then [Submission(FinalName(s, answer), s.clicks)] else [])
    // a warning from three seconds down, and "game over" after the last one
    ensures r.timeLeft > 0 ==>
      Emitted(s, r) == (if r.timeLeft <= LowTimeThreshold then [Warning(r.timeLeft)] else [])
    ensures r.timeLeft <= 0 ==> Emitted(s, r) == [Warning(r.timeLeft), GameOver(s.clicks)]
    ensures r.timeLeft <= 0 ==> r == EndGame(Emit(s.(timeLeft := r.timeLeft), [Warning(r.timeLeft)]), answer)
  {
    var t := s.timeLeft - 1;
    if t <= 0 then Expire(s, answer)
    else Emit(s.(timeLeft := t), if t <= LowTimeThreshold then [Warning(t)] else [])
  }

  /** The tick that takes the clock to zero or below: the warning, then `endGame`. */
  function Expire(s: State, answer: Option<string>): (r: State)
    requires s.timeLeft <= 1
    ensures Valid(s) ==> Valid(r)
    ensures r.timeLeft == s.timeLeft - 1
    ensures && !r.isPlaying && r.clicks == s.clicks && r.timer == s.timer && r.armed == Cleared(s)
            && r.nextTimer == s.nextTimer && r.timeouts == s.timeouts
            && (FinalName(s, answer) != "" ==> r.username == FinalName(s, answer))
            && r.inFlight == s.inFlight + (if FinalName(s, answer) != ""
                                           then [Submission(FinalName(s, answer), s.clicks)] else [])
    ensures Extends(s, r) && Emitted(s, r) == [Warning(s.timeLeft - 1), GameOver(s.clicks)]
  {
    var s1 := Emit(s.(timeLeft := s.timeLeft - 1), [Warning(s.timeLeft - 1)]);
    var r := EndGame(s1, answer);
    assert FinalName(s1, answer) == FinalName(s, answer);
    EmittedChain(s, s1, r);
    r
  }

  /** One notification per achievement, `NotificationGap` ms apart, in list order, numbered from `from`. */
  function Schedule(achievements: seq<Achievement>, from: nat): (r: seq<Timeout>)
    decreases |achievements|
    ensures |r| == |achievements|
    ensures forall i :: 0 <= i < |r| ==>
              r[i] == ShowAchievement(achievements[i], from + i, NotificationGap * (from + i))
    ensures forall i, j :: 0 <= i < j < |r| ==> r[i].delay < r[j].delay
  {
    if achievements == [] then []
    else [ShowAchievement(achievements[0], from, NotificationGap * from)] + Schedule(achievements[1..], from + 1)
  }

  /** The `forEach` over a submission result's achievements. */
  method ScheduleNotifications(achievements: seq<Achievement>) returns (entries: seq<Timeout>)
    ensures entries == Schedule(achievements, 0)
    ensures forall i :: 0 <= i < |entries| ==> entries[i].delay == NotificationGap * i
  {
    entries := [];
    var index := 0;
    while index < |achievements|
      invariant 0 <= index <= |achievements|
      invariant |entries| == index
      invariant forall i :: 0 <= i < index ==>
                  entries[i] == ShowAchievement(achievements[i], i, NotificationGap * i)
    {
      entries := entries + [ShowAchievement(achievements[index], index, index * NotificationGap)];
      index := index + 1;
    }
  }

  /**
   * The `.then` of `submitScoreAndHandleResult` for submission `k`. `result`
   * is what `submitScore` resolved to: `None` for `null` (the request failed,
   * after an alert), otherwise the response's achievement list (empty when
   * the response has none). Notifications are scheduled for the list, the
   * leaderboard and the player's achievements are refreshed, and the start
   * controls are re-enabled in every case, whatever game is running by then.
   */
  function Resolve(s: State, k: nat, result: Option<seq<Achievement>>): (r: State)
    requires k < |s.inFlight|
    ensures Valid(s) ==> Valid(r)
    ensures r == s.(inFlight := s.inFlight[..k] + s.inFlight[k + 1..],
                    timeouts := s.timeouts + (if result.Some? then Schedule(result.value, 0) else []),
                    startDisabled := false, inputDisabled := false, log := r.log)
    ensures Extends(s, r) && Emitted(s, r) == ResponseEffects(result.None?, s.inFlight[k].username)
  {
    var achievements := if result.Some? then result.value else [];
    var s1 := Enqueue(Dequeue(s, k), Schedule(achievements, 0));
    ResetGameUI(Emit(s1, ResponseEffects(result.None?, s.inFlight[k].username)))
  }

  /**
   * What the page shows when a submission's response arrives: an error when
   * it failed, and in every case a leaderboard refresh and, for a named
   * player, a refresh of that player's achievements.
   */
  function ResponseEffects(failed: bool, name: string): (fx: seq<Effect>)
    ensures SubmitFailed in fx <==> failed
    ensures LeaderboardRefresh in fx
    ensures UserAchievementsRefresh(name) in fx <==> name != ""
  {
    (if failed then [SubmitFailed] else []) + [LeaderboardRefresh]
    + (if name != "" then [UserAchievementsRefresh(name)] else [])
  }

  /** The submission `k` is answered: it leaves the in-flight list. */
  function Dequeue(s: State, k: nat): (r: State)
    requires k < |s.inFlight|
    ensures Valid(s) ==> Valid(r)
    ensures r == s.(inFlight := s.inFlight[..k] + s.inFlight[k + 1..])
  {
    var r := s.(inFlight := s.inFlight[..k] + s.inFlight[k + 1..]);
    assert Valid(s) ==> AllNamed(r.inFlight) by {
      forall i | 0 <= i < |r.inFlight| ensures r.inFlight[i] == s.inFlight[if i < k then i else i + 1] {}
    }
    r
  }

  /** Notifications join the pending timeouts. */
  function Enqueue(s: State, notifications: seq<Timeout>): (r: State)
    requires DelaysByIndex(notifications)
    ensures Valid(s) ==> Valid(r)
    ensures r == s.(timeouts := s.timeouts + notifications)
  {
    s.(timeouts := s.timeouts + notifications)
  }

  /**
   * A pending `setTimeout` callback runs and is gone. The pre-roll arms the
   * interval (whatever the session is doing by then); a notification is shown.
   */
  function Fire(s: State, j: nat): (r: State)
    requires j < |s.timeouts|
    ensures Valid(s) ==> Valid(r)
    ensures Extends(s, r)
    ensures r.timeouts == s.timeouts[..j] + s.timeouts[j + 1..]
    ensures s.timeouts[j].Preroll? ==>
      && r == s.(timeouts := r.timeouts, armed := s.armed + {s.nextTimer}, timer := Some(s.nextTimer),
                 nextTimer := s.nextTimer + 1, banner := Go, log := r.log)
      && Emitted(s, r) == [StartSound]
    ensures s.timeouts[j].ShowAchievement? ==>
      r == s.(timeouts := r.timeouts, log := s.log + [AchievementShown(s.timeouts[j].achievement)])
  {
    var rest := s.timeouts[..j] + s.timeouts[j + 1..];
    match s.timeouts[j]
    case Preroll => Emit(StartTimer(s.(timeouts := rest, banner := Go)), [StartSound])
    case ShowAchievement(a, _, _) => Emit(s.(timeouts := rest), [AchievementShown(a)])
  }

  /** Enter in the name box: `startGame()` (an explicit start) unless a game is on. */
  function PressEnter(s: State): (r: State)
    requires !s.inputDisabled
    ensures Valid(s) ==> Valid(r)
    ensures s.isPlaying ==> r == s
    ensures !s.isPlaying ==> r == StartGame(s, false)
  {
    if !s.isPlaying then StartGame(s, false) else s
  }

  /**
   * The start button. Its listener is `startGame` itself, so the click event
   * arrives as `autoStart` and is truthy: the button starts at once, without
   * validation or pre-roll, and does not check whether a game is on.
   */
  function PressStart(s: State): (r: State)
    requires !s.startDisabled
    ensures Valid(s) ==> Valid(r)
    ensures r.isPlaying && r.clicks == 0 && r.timeLeft == GameSeconds
    ensures r.username == (if s.username != "" then s.username else Trim(s.input))
    ensures r.armed == s.armed + {s.nextTimer} && r.timer == Some(s.nextTimer)
    ensures r.inFlight == s.inFlight && r.timeouts == s.timeouts
    ensures r.startDisabled && r.inputDisabled && r.banner == Go && r.input == s.input
    ensures Extends(s, r) && Emitted(s, r) == [StartSound]
    ensures r == StartGame(s, true)
  {
    StartGame(s, true)
  }

  /** The player types in the name box. */
  function EditName(s: State, value: string): (r: State)
    requires !s.inputDisabled
    ensures Valid(s) ==> Valid(r)
    ensures r == s.(input := value)
  {
    s.(input := value)
  }
}
