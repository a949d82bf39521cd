/**
 * The game page as the browser runs it: one object whose fields are the
 * global `gameState`, the controls the session reads and writes and the
 * browser's timers and pending requests. Every handler updates the fields in
 * place, in the order the page script does, and is proved to leave exactly
 * the state the matching `Session` function describes, so everything proved
 * about `Session` holds of the page.
 */
module Page {
  import opened Common
  import opened Text
  import Session

  class Game {
    // gameState
    var isPlaying: bool
    var clicks: nat
    var timeLeft: int
    var timer: Option<nat>
    var username: string
    // page controls
    var input: string
    var startDisabled: bool
    var inputDisabled: bool
    var banner: Session.Banner
    // browser bookkeeping
    var armed: set<nat>
    var nextTimer: nat
    var timeouts: seq<Session.Timeout>
    var inFlight: seq<Session.Submission>
    var log: seq<Session.Effect>

    /** The page's fields as one session state. */
    function State(): Session.State
      reads this
    {
      Session.State(isPlaying, clicks, timeLeft, timer, username, input, startDisabled,
                    inputDisabled, banner, armed, nextTimer, timeouts, inFlight, log)
    }

    /** The page as it loads: no game, an empty name, nothing armed or pending. */
    constructor()
      ensures State() == Session.Init()
    {
      isPlaying, clicks, timeLeft, timer, username := false, 0, Session.GameSeconds, None, "";
      input, startDisabled, inputDisabled, banner := "", false, false, Session.Idle;
      armed, nextTimer, timeouts, inFlight, log := {}, 0, [], [], [];
    }

    /** The player types in the name box. */
    method EditName(value: string)
      requires !inputDisabled
      modifies this
      ensures State() == Session.EditName(old(State()), value)
    {
      input := value;
    }

    /** Enter in the name box starts a game explicitly unless one is on. */
    method PressEnter()
      requires !inputDisabled
      modifies this
      ensures State() == Session.PressEnter(old(State()))
    {
      if !isPlaying {
        StartGame(false);
      }
    }

    /** The start button: its listener is `startGame`, which takes the click event as `autoStart`. */
    method PressStart()
      requires !startDisabled
      modifies this
      ensures State() == Session.PressStart(old(State()))
    {
      StartGame(true);
    }

    /**
     * `startGame(autoStart)`: an explicit start needs a name in the box and
     * waits for the pre-roll; an auto-start keeps the stored name and arms the
     * interval at once.
     */
    method StartGame(autoStart: bool)
      modifies this
      ensures State() == Session.StartGame(old(State()), autoStart)
    {
      if autoStart {
        NewGame(if username != "" then username else Trim(input), Session.Go);
        StartTimer();
        log := log + [Session.StartSound];
      } else if Trim(input) == "" {
        log := log + [Session.NameRequired];
      } else {
        NewGame(Trim(input), Session.GetReady);
        timeouts := timeouts + [Session.Preroll];
      }
    }

    /** The reset part of `startGame`: a fresh game under `name`, controls disabled. */
    method NewGame(name: string, shown: Session.Banner)
      modifies this
      ensures State() == Session.NewGame(old(State()), name, shown)
    {
      ghost var s := State();
      assert Session.NewGame(s, name, shown) == s.(username := name, isPlaying := true, clicks := 0,
        timeLeft := Session.GameSeconds, banner := shown, startDisabled := true, inputDisabled := true);
      username, isPlaying, clicks, timeLeft := name, true, 0, Session.GameSeconds;
      banner, startDisabled, inputDisabled := shown, true, true;
    }

    /** `startTimer()`: a new interval, remembered in `timer`; the previous one stays armed. */
    method StartTimer()
      modifies this
      ensures State() == Session.StartTimer(old(State()))
    {
      armed := armed + {nextTimer};
      timer := Some(nextTimer);
      nextTimer := nextTimer + 1;
    }

    /** `handleClick()`: a click with no game on auto-starts one, and every click counts. */
    method Click()
      modifies this
      ensures State() == Session.Click(old(State()))
    {
      if !isPlaying {
        AutoStart();
      }
      CountClick();
    }

    /** Before `startGame(true)`, `handleClick` stores the trimmed name box if no name is stored. */
    method AutoStart()
      modifies this
      ensures State() == Session.AutoStart(old(State()))
    {
      ghost var s := State();
      if username == "" && Trim(input) != "" {
        username := Trim(input);
      }
      assert State() == if s.username == "" && Trim(s.input) != "" then s.(username := Trim(s.input)) else s;
      StartGame(true);
    }

    /** `gameState.clicks++` and the click's presentation. */
    method CountClick()
      modifies this
      ensures State() == Session.CountClick(old(State()))
    {
      clicks := clicks + 1;
      log := log + [Session.Clicked(clicks)]
                 + (if clicks % Session.MilestoneEvery == 0 then [Session.Milestone(clicks)] else []);
    }

    /** One run of the callback of armed interval `id`. */
    method Tick(id: nat, answer: Option<string>)
      requires id in armed
      modifies this
      ensures State() == Session.Tick(old(State()), id, answer)
    {
      ghost var s := State();
      if timeLeft - 1 <= 0 {
        TickExpires(s, id, answer);
        Expire(answer);
      } else {
        TickRunsDown(s, id, answer);
        RunDown();
      }
    }

    /** A tick that leaves time on the clock: `gameState.timeLeft--`, and the warning from three seconds down. */
    method RunDown()
      modifies this
      ensures var s := old(State());
        State() == Session.Emit(s.(timeLeft := s.timeLeft - 1),
                                if s.timeLeft - 1 <= Session.LowTimeThreshold then [Session.Warning(s.timeLeft - 1)] else [])
    {
      timeLeft := timeLeft - 1;
      if timeLeft <= Session.LowTimeThreshold {
        log := log + [Session.Warning(timeLeft)];
      }
    }

    /** The tick that takes the clock to zero or below: the warning, then `endGame()`. */
    method Expire(answer: Option<string>)
      modifies this
      ensures var s := old(State());
        State() == Session.EndGame(Session.Emit(s.(timeLeft := s.timeLeft - 1), [Session.Warning(s.timeLeft - 1)]), answer)
    {
      CountDown();
      EndGame(answer);
    }

    /** `gameState.timeLeft--` and the warning of the tick that runs the clock out (it is always below three seconds). */
    method CountDown()
      modifies this
      ensures var s := old(State());
        State() == Session.Emit(s.(timeLeft := s.timeLeft - 1), [Session.Warning(s.timeLeft - 1)])
    {
      timeLeft := timeLeft - 1;
      log := log + [Session.Warning(timeLeft)];
    }

    /** `endGame()`, with `answer` what the username prompt returns if it is shown. */
    method EndGame(answer: Option<string>)
      modifies this
      ensures State() == Session.EndGame(old(State()), answer)
    {
      StopGame();
      var finalUsername := if username != "" then username else Trim(input);
      if finalUsername == "" {
        Prompted(Session.PromptAnswer(answer));
      } else {
        Submit(finalUsername);
      }
    }

    /** The `.then` of `promptForUsername()`: submit under the answer, or say the score is not saved. */
    method Prompted(name: string)
      modifies this
      ensures name != "" ==> State() == Session.SubmitScore(old(State()).(username := name, input := name), name)
      ensures name == "" ==> State() == Session.ResetGameUI(old(State())).(banner := Session.NotSaved)
    {
      if name != "" {
        username := name;
        input := name;
        SubmitScore(name);
      } else {
        ResetGameUI();
        banner := Session.NotSaved;
      }
    }

    /** The name was known without asking: it is stored (it may already be) and the score submitted. */
    method Submit(name: string)
      modifies this
      ensures State() == Session.SubmitScore(old(State()).(username := name), name)
    {
      username := name;
      SubmitScore(name);
    }

    /** `clearInterval(gameState.timer)`, the end of play and the "game over" banner. */
    method StopGame()
      modifies this
      ensures State() == Session.StopGame(old(State()))
    {
      if timer.Some? {
        armed := armed - {timer.value};
      }
      isPlaying := false;
      banner := Session.Over(clicks);
      log := log + [Session.GameOver(clicks)];
    }

    /** `submitScore(name, gameState.clicks)`: the request leaves; its response comes later. */
    method SubmitScore(name: string)
      modifies this
      ensures State() == Session.SubmitScore(old(State()), name)
    {
      inFlight := inFlight + [Session.Submission(name, clicks)];
    }

    /** The control-flag part of `resetGameUI()`. */
    method ResetGameUI()
      modifies this
      ensures State() == Session.ResetGameUI(old(State()))
    {
      startDisabled := false;
      inputDisabled := false;
    }

    /**
     * The response to submission `k` arrives (`result` is `None` when the
     * request failed): the `.then` callback of `submitScoreAndHandleResult`.
     */
    method ResolveSubmission(k: nat, result: Option<seq<Session.Achievement>>)
      requires k < |inFlight|
      modifies this
      ensures State() == Session.Resolve(old(State()), k, result)
    {
      var name := inFlight[k].username;
      Dequeue(k);
      var entries := [];
      if result.Some? {
        entries := Session.ScheduleNotifications(result.value);
      }
      Enqueue(entries);
      log := log + Session.ResponseEffects(result.None?, name);
      ResetGameUI();
    }

    /** The answered submission leaves the in-flight list. */
    method Dequeue(k: nat)
      requires k < |inFlight|
      modifies this
      ensures State() == Session.Dequeue(old(State()), k)
    {
      inFlight := inFlight[..k] + inFlight[k + 1..];
    }

    /** `setTimeout` for each notification. */
    method Enqueue(notifications: seq<Session.Timeout>)
      requires Session.DelaysByIndex(notifications)
      modifies this
      ensures State() == Session.Enqueue(old(State()), notifications)
    {
      timeouts := timeouts + notifications;
    }

    /** Pending timeout `j` runs: the pre-roll's end, or an achievement notification. */
    method FireTimeout(j: nat)
      requires j < |timeouts|
      modifies this
      ensures State() == Session.Fire(old(State()), j)
    {
      var t := timeouts[j];
      timeouts := timeouts[..j] + timeouts[j + 1..];
      match t
      case Preroll =>
        banner := Session.Go;
        StartTimer();
        log := log + [Session.StartSound];
      case ShowAchievement(a, _, _) =>
        log := log + [Session.AchievementShown(a)];
    }
  }

  /** Once the clock runs out, `Session.Tick` is the last warning and `Session.EndGame`. */
  lemma TickExpires(s: Session.State, id: nat, answer: Option<string>)
    requires id in s.armed && s.timeLeft - 1 <= 0
    ensures Session.Tick(s, id, answer)
         == Session.EndGame(Session.Emit(s.(timeLeft := s.timeLeft - 1), [Session.Warning(s.timeLeft - 1)]), answer)
  {
  }

  /** While time is left, `Session.Tick` only counts down and warns from three seconds. */
  lemma TickRunsDown(s: Session.State, id: nat, answer: Option<string>)
    requires id in s.armed && s.timeLeft - 1 > 0
    ensures Session.Tick(s, id, answer)
         == Session.Emit(s.(timeLeft := s.timeLeft - 1),
                         if s.timeLeft - 1 <= Session.LowTimeThreshold then [Session.Warning(s.timeLeft - 1)] else [])
  {
  }
}
