/**
 * Properties of runs of several events: how long a game lasts, how clicks
 * add up, and what the absence of a "busy" guard and the interval that
 * `startTimer` never clears lead to.
 */
module SessionProps {
  import opened Common
  import opened Text
  import opened Session

  /** `n` runs of interval `id`'s callback, stopping early once the interval is cleared. */
  function Ticks(s: State, id: nat, n: nat, answer: Option<string>): State
    decreases n
  {
    if n == 0 || id !in s.armed then s else Ticks(Tick(s, id, answer), id, n - 1, answer)
  }

  /** `n` clicks on the big button. */
  function Clicks(s: State, n: nat): State
    decreases n
  {
    if n == 0 then s else Clicks(Click(s), n - 1)
  }

  predicate NoGameOver(fx: seq<Effect>) {
    forall i :: 0 <= i < |fx| ==> !fx[i].GameOver?
  }

  /** Ticks that leave time on the clock change nothing but the clock and emit no "game over". */
  lemma {:induction false} TicksWhileRunning(s: State, id: nat, n: nat, answer: Option<string>)
    requires id in s.armed && n < s.timeLeft
    ensures var r := Ticks(s, id, n, answer);
      r == s.(timeLeft := s.timeLeft - n, log := r.log) && Extends(s, r) && NoGameOver(Emitted(s, r))
    decreases n
  {
    var r := Ticks(s, id, n, answer);
    if n == 0 {
      assert Emitted(s, r) == [];
    } else {
      var t := Tick(s, id, answer);
      TicksWhileRunning(t, id, n - 1, answer);
      EmittedChain(s, t, r);
      assert NoGameOver(Emitted(s, t));
    }
  }

  /**
   * `r` is `s` after its game ran out on interval `id`: stopped at zero with
   * the interval cleared, and the score sent under the final name when there
   * is one.
   */
  predicate RanOut(s: State, r: State, id: nat, answer: Option<string>) {
    && !r.isPlaying && r.armed == s.armed - {id} && r.timeLeft == 0 && r.clicks == s.clicks
    && r.timer == s.timer && r.nextTimer == s.nextTimer && r.timeouts == s.timeouts
    && (FinalName(s, answer) != "" ==> r.username == FinalName(s, answer))
    && r.inFlight == s.inFlight + (if FinalName(s, answer) != ""
                                   then [Submission(FinalName(s, answer), s.clicks)] else [])
  }

  /** The tick that takes the clock from 1 to 0 ends the game and clears its interval. */
  lemma LastTick(p: State, id: nat, answer: Option<string>)
    requires p.timer == Some(id) && id in p.armed && p.timeLeft == 1
    ensures var r := Tick(p, id, answer);
      RanOut(p, r, id, answer) && Emitted(p, r) == [Warning(0), GameOver(p.clicks)]
  {
  }

  /** Running out depends only on the game's state, not on the clock or the effects so far. */
  lemma RanOutFrom(s: State, p: State, r: State, id: nat, answer: Option<string>)
    requires p == s.(timeLeft := p.timeLeft, log := p.log)
    requires RanOut(p, r, id, answer)
    ensures RanOut(s, r, id, answer)
  {
    assert FinalName(p, answer) == FinalName(s, answer);
  }

  /**
   * A game whose interval is `timer` lasts exactly `timeLeft` ticks of that
   * interval (fewer ticks leave it running: `TicksWhileRunning`). The tick
   * that reaches zero ends it, clears the interval, so no further tick of it
   * comes, and submits the score under the final name.
   */
  lemma {:induction false} CountdownEndsAtZero(s: State, id: nat, n: nat, answer: Option<string>)
    requires s.timer == Some(id) && id in s.armed && 1 <= s.timeLeft <= n
    ensures RanOut(s, Ticks(s, id, n, answer), id, answer)
    decreases n
  {
    var t := Tick(s, id, answer);
    if s.timeLeft == 1 {
      LastTick(s, id, answer);
      assert Ticks(t, id, n - 1, answer) == t;
    } else {
      assert t == s.(timeLeft := s.timeLeft - 1, log := t.log);
      CountdownEndsAtZero(t, id, n - 1, answer);
      RanOutFrom(s, t, Ticks(t, id, n - 1, answer), id, answer);
    }
  }

  /** `fx` ends with "game over" and has no other one. */
  predicate EndsWithGameOver(fx: seq<Effect>, clicks: nat) {
    |fx| > 0 && fx[|fx| - 1] == GameOver(clicks) && NoGameOver(fx[..|fx| - 1])
  }

  /** Over the whole countdown "game over" is emitted exactly once, as the last effect. */
  lemma {:induction false} CountdownEndsOnce(s: State, id: nat, n: nat, answer: Option<string>)
    requires s.timer == Some(id) && id in s.armed && 1 <= s.timeLeft <= n
    ensures var r := Ticks(s, id, n, answer);
      Extends(s, r) && EndsWithGameOver(Emitted(s, r), s.clicks)
    decreases n
  {
    var t := Tick(s, id, answer);
    var r := Ticks(t, id, n - 1, answer);
    if s.timeLeft == 1 {
      LastTick(s, id, answer);
      assert r == t;
      assert Emitted(s, r)[..1] == [Warning(0)];
    } else {
      assert t == s.(timeLeft := s.timeLeft - 1, log := t.log);
      assert NoGameOver(Emitted(s, t));
      CountdownEndsOnce(t, id, n - 1, answer);
      EmittedChain(s, t, r);
      NoGameOverBefore(Emitted(s, t), Emitted(t, r), s.clicks);
    }
  }

  /** Effects without "game over" in front of a run that ends with its only one keep it last and unique. */
  lemma NoGameOverBefore(e: seq<Effect>, f: seq<Effect>, clicks: nat)
    requires NoGameOver(e) && EndsWithGameOver(f, clicks)
    ensures EndsWithGameOver(e + f, clicks)
  {
    var fx := e + f;
    assert fx[..|fx| - 1] == e + f[..|f| - 1];
  }

  /** Clicks while a game is on are each counted once, and nothing else about the game changes. */
  lemma {:induction false} ClicksAddUp(s: State, n: nat)
    requires s.isPlaying
    ensures var r := Clicks(s, n);
      r == s.(clicks := s.clicks + n, log := r.log) && Extends(s, r)
    decreases n
  {
    if n > 0 {
      var c := Click(s);
      ClicksAddUp(c, n - 1);
      EmittedChain(s, c, Clicks(s, n));
    }
  }

  /**
   * A game auto-started by a click lasts ten ticks of the interval it armed,
   * and `n` clicks before the end leave a score of `n`.
   */
  lemma AutoStartedGameLastsTenTicks(s: State, n: nat, answer: Option<string>)
    requires Valid(s) && !s.isPlaying && n >= 1
    ensures var g := Clicks(s, n);
      && g.clicks == n && g.timer == Some(s.nextTimer)
      && Ticks(g, s.nextTimer, 9, answer).isPlaying
      && Ticks(g, s.nextTimer, 9, answer).timeLeft == 1
      && !Ticks(g, s.nextTimer, 10, answer).isPlaying
      && Ticks(g, s.nextTimer, 10, answer).timeLeft == 0
      && Ticks(g, s.nextTimer, 10, answer).clicks == n
  {
    var c := Click(s);
    ClicksAddUp(c, n - 1);
    var g := Clicks(s, n);
    assert g == Clicks(c, n - 1);
    TicksWhileRunning(g, s.nextTimer, 9, answer);
    CountdownEndsAtZero(g, s.nextTimer, 10, answer);
  }

  /**
   * Clicks during the "GET READY" pre-roll count: after Enter with a name,
   * `n` clicks leave a score of `n` although the game's interval is not armed
   * yet (only the pre-roll is pending).
   */
  lemma PrerollClicksCount(s: State, n: nat)
    requires Valid(s) && !s.isPlaying && !s.inputDisabled && !AllSpace(s.input)
    ensures var r := Clicks(PressEnter(s), n);
      && r.isPlaying && r.clicks == n
      && r.armed == s.armed && r.timeouts == s.timeouts + [Preroll]
  {
    ClicksAddUp(PressEnter(s), n);
  }

  /** Enter with a name when no game is on resets the game and schedules only the pre-roll. */
  lemma EnterSchedulesPreroll(s: State)
    requires !s.isPlaying && !s.inputDisabled && !AllSpace(s.input)
    ensures PressEnter(s) == s.(isPlaying := true, clicks := 0, timeLeft := GameSeconds,
                                username := Trim(s.input), startDisabled := true,
                                inputDisabled := true, banner := GetReady,
                                timeouts := s.timeouts + [Preroll])
  {
  }

  /** The pre-roll, when it is the last pending timeout, arms the game's interval and shows "GO!". */
  lemma PrerollFires(e: State, t: seq<Timeout>)
    requires e.timeouts == t + [Preroll]
    ensures var g := Fire(e, |t|);
      g == e.(timeouts := t, armed := e.armed + {e.nextTimer}, timer := Some(e.nextTimer),
              nextTimer := e.nextTimer + 1, banner := Go, log := g.log)
  {
    assert e.timeouts[..|t|] == t;
  }

  /**
   * Enter with a name, then the pre-roll fires: the game is on with a full
   * clock, no clicks, the trimmed name stored, the controls disabled and the
   * game's interval armed.
   */
  lemma PrerollStartsClock(s: State)
    requires !s.isPlaying && !s.inputDisabled && !AllSpace(s.input)
    ensures var g := Fire(PressEnter(s), |s.timeouts|);
      g == s.(isPlaying := true, clicks := 0, timeLeft := GameSeconds, username := Trim(s.input),
              startDisabled := true, inputDisabled := true, banner := Go,
              armed := s.armed + {s.nextTimer}, timer := Some(s.nextTimer),
              nextTimer := s.nextTimer + 1, log := g.log)
  {
    EnterSchedulesPreroll(s);
    PrerollFires(PressEnter(s), s.timeouts);
  }

  /** Clicks after the pre-roll fired count, and nothing else about the new game changes. */
  lemma ClicksAfterPreroll(s: State, n: nat)
    requires !s.isPlaying && !s.inputDisabled && !AllSpace(s.input)
    ensures var ready := Clicks(Fire(PressEnter(s), |s.timeouts|), n);
      ready == s.(isPlaying := true, clicks := n, timeLeft := GameSeconds, username := Trim(s.input),
                  startDisabled := true, inputDisabled := true, banner := Go,
                  armed := s.armed + {s.nextTimer}, timer := Some(s.nextTimer),
                  nextTimer := s.nextTimer + 1, log := ready.log)
  {
    PrerollStartsClock(s);
    ClicksAddUp(Fire(PressEnter(s), |s.timeouts|), n);
  }

  /**
   * A game started with Enter lasts ten ticks counted from the moment its
   * pre-roll fires (here: with `n` clicks and no tick of another interval in
   * between), and its score `n` is then sent under the trimmed name.
   */
  lemma ExplicitStartLastsTenTicks(s: State, n: nat, answer: Option<string>)
    requires !s.isPlaying && !s.inputDisabled && !AllSpace(s.input)
    ensures var ready := Clicks(Fire(PressEnter(s), |s.timeouts|), n);
      && Ticks(ready, s.nextTimer, 9, answer).isPlaying
      && var ended := Ticks(ready, s.nextTimer, 10, answer);
      && !ended.isPlaying && ended.timeLeft == 0 && ended.timeouts == s.timeouts
      && ended.inFlight == s.inFlight + [Submission(Trim(s.input), n)]
  {
    ClicksAfterPreroll(s, n);
    var ready := Clicks(Fire(PressEnter(s), |s.timeouts|), n);
    assert FinalName(ready, answer) == Trim(s.input);
    TicksWhileRunning(ready, s.nextTimer, 9, answer);
    CountdownEndsAtZero(ready, s.nextTimer, 10, answer);
  }

  /**
   * No "busy" guard: a click after a game ended starts the next game while
   * the previous score is still in flight, and when that response arrives it
   * re-enables the start button in the middle of the new game. The start
   * button then arms a second interval: the first one is never cleared.
   */
  lemma StaleResetArmsSecondInterval(s: State, result: Option<seq<Achievement>>)
    requires !s.isPlaying && s.armed == {} && |s.inFlight| > 0
    ensures var reset := Resolve(Click(s), 0, result);
      && reset.isPlaying && !reset.startDisabled
      && PressStart(reset).armed == {s.nextTimer, s.nextTimer + 1}
      && PressStart(reset).timer == Some(s.nextTimer + 1)
  {
    RestartWhileSubmitting(s, result);
  }

  /** The click's game goes on when the previous game's response arrives; only the controls change. */
  lemma RestartWhileSubmitting(s: State, result: Option<seq<Achievement>>)
    requires !s.isPlaying && |s.inFlight| > 0
    ensures var reset := Resolve(Click(s), 0, result);
      reset == s.(isPlaying := true, clicks := 1, timeLeft := GameSeconds,
                  username := if s.username != "" then s.username else Trim(s.input),
                  startDisabled := false, inputDisabled := false, banner := Go,
                  armed := s.armed + {s.nextTimer}, timer := Some(s.nextTimer),
                  nextTimer := s.nextTimer + 1, inFlight := s.inFlight[1..],
                  timeouts := reset.timeouts, log := reset.log)
  {
  }

  /** One firing of interval `id` if it is still armed; a cleared interval never fires. */
  function TickIfArmed(s: State, id: nat, answer: Option<string>): State {
    if id in s.armed then Tick(s, id, answer) else s
  }

  /**
   * `n` seconds of two intervals armed one after the other with the same
   * period: in every second `first` (armed earlier) fires, then `second`.
   */
  function Alternate(s: State, first: nat, second: nat, n: nat, answer: Option<string>): State
    decreases n
  {
    if n == 0 then s
    else Alternate(TickIfArmed(TickIfArmed(s, first, answer), second, answer), first, second, n - 1, answer)
  }

  /**
   * With a second interval firing before the game's own one each second,
   * the clock runs down twice as fast: a game with `2 * n` seconds left ends
   * after `n` ticks of its own interval, on that interval's tick, which is
   * cleared, while the other one stays armed.
   */
  lemma {:induction false} AlternateEndsGame(s: State, first: nat, second: nat, n: nat, answer: Option<string>)
    requires s.timer == Some(second) && first != second && first in s.armed && second in s.armed
    requires n >= 1 && s.timeLeft == 2 * n
    ensures RanOut(s, Alternate(s, first, second, n, answer), second, answer)
    decreases n
  {
    var t1 := Tick(s, first, answer);
    assert t1 == s.(timeLeft := s.timeLeft - 1, log := t1.log);
    var t2 := Tick(t1, second, answer);
    assert Alternate(s, first, second, n, answer) == Alternate(t2, first, second, n - 1, answer);
    if n == 1 {
      LastTick(t1, second, answer);
      RanOutFrom(s, t1, t2, second, answer);
    } else {
      assert t2 == s.(timeLeft := s.timeLeft - 2, log := t2.log);
      AlternateEndsGame(t2, first, second, n - 1, answer);
      RanOutFrom(s, t2, Alternate(t2, first, second, n - 1, answer), second, answer);
    }
  }

  /** The start button's game, after the stale reset: a fresh ten-second game beside the click's interval. */
  lemma SecondStart(s: State, result: Option<seq<Achievement>>)
    requires !s.isPlaying && s.armed == {} && |s.inFlight| > 0 && s.username != ""
    ensures var twice := PressStart(Resolve(Click(s), 0, result));
      && twice.timer == Some(s.nextTimer + 1) && s.nextTimer in twice.armed && s.nextTimer + 1 in twice.armed
      && twice.timeLeft == GameSeconds && twice.clicks == 0
      && twice.username == s.username && twice.inFlight == s.inFlight[1..]
  {
    RestartWhileSubmitting(s, result);
    var reset := Resolve(Click(s), 0, result);
    assert reset.armed == {s.nextTimer} && reset.nextTimer == s.nextTimer + 1;
    assert reset.username == s.username && reset.inFlight == s.inFlight[1..];
  }

  /**
   * The game the start button began, with the click's interval leaked: the
   * leaked interval fires first each second, so the game ends after five
   * ticks of its own interval, on its own interval's tick, which is cleared;
   * the leaked one stays armed, and the score (no clicks) is submitted.
   */
  lemma SecondGameEnds(s: State, result: Option<seq<Achievement>>, answer: Option<string>)
    requires !s.isPlaying && s.armed == {} && |s.inFlight| > 0 && s.username != ""
    ensures var twice := PressStart(Resolve(Click(s), 0, result));
      var ended := Alternate(twice, s.nextTimer, s.nextTimer + 1, GameSeconds / 2, answer);
      && !ended.isPlaying && ended.timeLeft == 0
      && s.nextTimer in ended.armed && s.nextTimer + 1 !in ended.armed
      && ended.timer == Some(s.nextTimer + 1)
      && ended.username == s.username && ended.clicks == 0
      && ended.inFlight == s.inFlight[1..] + [Submission(s.username, 0)]
  {
    SecondStart(s, result);
    var twice := PressStart(Resolve(Click(s), 0, result));
    assert FinalName(twice, answer) == s.username;
    AlternateEndsGame(twice, s.nextTimer, s.nextTimer + 1, GameSeconds / 2, answer);
  }

  /** `k` copies of `x`. */
  function Copies<T>(x: T, k: nat): (r: seq<T>)
    ensures |r| == k && forall i :: 0 <= i < k ==> r[i] == x
  {
    if k == 0 then [] else [x] + Copies(x, k - 1)
  }

  /** One more copy in front of `k - 1` copies makes `k`. */
  lemma AppendCopies<T>(a: seq<T>, x: T, k: nat)
    requires k > 0
    ensures a + [x] + Copies(x, k - 1) == a + Copies(x, k)
  {
    assert Copies(x, k) == [x] + Copies(x, k - 1);
  }

  /**
   * Every tick of an interval nobody cleared, after the game ended, runs
   * `endGame` again: the clock goes below zero and the same score is
   * submitted once more each time, and the interval stays armed.
   */
  lemma {:induction false} LeakedTicksResubmit(e: State, id: nat, k: nat, answer: Option<string>)
    requires !e.isPlaying && e.timeLeft <= 0 && id in e.armed && e.timer != Some(id) && e.username != ""
    ensures var r := Ticks(e, id, k, answer);
      && !r.isPlaying && r.timeLeft == e.timeLeft - k && id in r.armed
      && r.username == e.username && r.clicks == e.clicks
      && r.inFlight == e.inFlight + Copies(Submission(e.username, e.clicks), k)
    decreases k
  {
    if k > 0 {
      var t := Tick(e, id, answer);
      var x := Submission(e.username, e.clicks);
      LeakedTick(e, id, answer);
      LeakedTicksResubmit(t, id, k - 1, answer);
      AppendCopies(e.inFlight, x, k);
    }
  }

  /** One tick of a leaked interval after the game ended: `endGame` again, one more submission. */
  lemma LeakedTick(e: State, id: nat, answer: Option<string>)
    requires !e.isPlaying && e.timeLeft <= 0 && id in e.armed && e.timer != Some(id) && e.username != ""
    ensures var t := Tick(e, id, answer);
      && !t.isPlaying && t.timeLeft == e.timeLeft - 1 && id in t.armed && t.timer == e.timer
      && t.username == e.username && t.clicks == e.clicks
      && t.inFlight == e.inFlight + [Submission(e.username, e.clicks)]
  {
    assert FinalName(e, answer) == e.username;
  }

  /**
   * With a leaked interval the game never stops ending: after the second
   * game's own interval runs out, each of the `k` further ticks of the
   * leaked one calls `endGame` and submits the same score again, so `k + 1`
   * identical submissions are sent.
   */
  lemma LeakedIntervalKeepsSubmitting(s: State, result: Option<seq<Achievement>>, answer: Option<string>, k: nat)
    requires !s.isPlaying && s.armed == {} && |s.inFlight| > 0 && s.username != ""
    ensures var twice := PressStart(Resolve(Click(s), 0, result));
      var ended := Alternate(twice, s.nextTimer, s.nextTimer + 1, GameSeconds / 2, answer);
      var later := Ticks(ended, s.nextTimer, k, answer);
      && !later.isPlaying && later.timeLeft == -(k as int) && s.nextTimer in later.armed
      && later.inFlight == s.inFlight[1..] + Copies(Submission(s.username, 0), k + 1)
  {
    SecondGameEnds(s, result, answer);
    var ended := Alternate(PressStart(Resolve(Click(s), 0, result)), s.nextTimer, s.nextTimer + 1, GameSeconds / 2, answer);
    LeakedTicksResubmit(ended, s.nextTimer, k, answer);
    AppendCopies(s.inFlight[1..], Submission(s.username, 0), k + 1);
  }

  /**
   * The stored name outlives the game: after it ends and its submission is
   * answered, the next auto-started game keeps the name even if the name box
   * now says something else.
   */
  lemma NameCarriesOver(s: State, answer: Option<string>, result: Option<seq<Achievement>>, typed: string)
    requires Valid(s) && s.username != ""
    ensures var ended := EndGame(s, answer);
      && |ended.inFlight| > 0
      && var next := Click(EditName(Resolve(ended, |ended.inFlight| - 1, result), typed));
      && next.username == s.username && next.clicks == 1
  {
  }

  /** A submission that succeeds with no achievements schedules nothing and refreshes both lists. */
  lemma PlainSuccess(e: State, name: string, clicks: nat)
    requires e.inFlight == [Submission(name, clicks)] && e.timeouts == [] && name != ""
    ensures var done := Resolve(e, 0, Some([]));
      && done.inFlight == [] && done.timeouts == []
      && !done.startDisabled && !done.inputDisabled
      && LeaderboardRefresh in Emitted(e, done)
      && UserAchievementsRefresh(name) in Emitted(e, done)
  {
    assert Schedule([], 0) == [];
  }

  /**
   * A full game: a name in the box, Enter, the pre-roll fires, `n` clicks,
   * ten ticks, and the submission succeeds with no achievements. The score
   * `n` is sent under the trimmed name, no notification is scheduled, both
   * refreshes are requested and the controls are enabled again.
   */
  lemma FullGame(s: State, n: nat, answer: Option<string>)
    requires !s.isPlaying && !s.inputDisabled && !AllSpace(s.input)
    requires s.timeouts == [] && s.inFlight == []
    ensures var ready := Clicks(Fire(PressEnter(s), 0), n);
      var ended := Ticks(ready, s.nextTimer, 10, answer);
      && ended.inFlight == [Submission(Trim(s.input), n)] && !ended.isPlaying && ended.timeLeft == 0
      && var done := Resolve(ended, 0, Some([]));
      && done.inFlight == [] && done.timeouts == []
      && !done.startDisabled && !done.inputDisabled
      && LeaderboardRefresh in Emitted(ended, done)
      && UserAchievementsRefresh(Trim(s.input)) in Emitted(ended, done)
  {
    ExplicitStartLastsTenTicks(s, n, answer);
    PlainSuccess(Ticks(Clicks(Fire(PressEnter(s), 0), n), s.nextTimer, 10, answer), Trim(s.input), n);
  }
}
