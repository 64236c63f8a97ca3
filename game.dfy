/**
 * The single-player game screen of client/src/pages/game.tsx as a state
 * machine. Its state is the component's state fields plus what is in
 * flight: the check-answer requests not yet answered and the 2-second
 * follow-ups queued after each result. Every callback that changes state
 * is one event. The pure transition functions carry the properties; the
 * class `Game` performs the same steps field by field.
 */
module GamePage {
  import opened Wrappers
  import Storage

  // ---------------------------------------------------------------- configuration

  /** The seconds per question: 30 in "timed" mode, no clock otherwise. */
  function MaxTime(mode: string): (r: Option<int>)
    ensures r.Some? <==> mode == "timed"
    ensures r.Some? ==> r.value == 30
  {
    if mode == "timed" then Some(30) else None
  }

  /** The lives a game starts with: 5 in "infinite" mode, 1 otherwise. */
  function MaxLives(mode: string): (r: int)
    ensures mode == "infinite" ==> r == 5
    ensures mode != "infinite" ==> r == 1
  {
    if mode == "infinite" then 5 else 1
  }

  /** The number of questions requested: 50 in "infinite" mode, 10 otherwise. */
  function QuestionsPerGame(mode: string): (r: nat)
    ensures mode == "infinite" ==> r == 50
    ensures mode != "infinite" ==> r == 10
  {
    if mode == "infinite" then 50 else 10
  }

  /**
   * The points of a correct answer: in "timed" mode ten per second left,
   * but never less than 100 (no time, or 0 seconds, also gives 100);
   * 100 in every other mode.
   */
  function Points(mode: string, timeLeft: Option<int>): (r: int)
    ensures r >= 100
    ensures mode != "timed" ==> r == 100
    ensures mode == "timed" && timeLeft.Some? && timeLeft.value > 10 ==> r == 10 * timeLeft.value
    ensures mode == "timed" && (timeLeft.None? || timeLeft.value <= 10) ==> r == 100
  {
    if mode == "timed" then
      var earned := if timeLeft.Some? && timeLeft.value != 0 then timeLeft.value * 10 else 100;
      if earned > 100 then earned else 100
    else 100
  }

  /** The client-side verdict: no answer (or an empty one) is wrong without asking the server. */
  function Verdict(answer: Option<string>, server: bool): (r: bool)
    ensures answer.None? || answer.value == [] ==> !r
    ensures answer.Some? && answer.value != [] ==> r == server
  {
    match answer
    case None => false
    case Some(a) => if a == [] then false else server
  }

  // ---------------------------------------------------------------- state

  /** The values a result callback saw; its follow-up works with these. */
  datatype Snapshot = Snapshot(index: nat, score: int, correct: nat, lives: int)

  /** A queued 2-second follow-up: the verdict and the values seen when it was queued. */
  datatype FollowUp = FollowUp(isCorrect: bool, seen: Snapshot)

  /** The update `endGame` sends for the game session. */
  datatype SessionUpdate = SessionUpdate(score: int, questionsAnswered: nat, correctAnswers: nat, livesRemaining: int)

  /**
   * The screen's state. `total` is the number of questions loaded and
   * `hasSession` whether a game session exists (every mode but "guest").
   * `timeUpBound` is whether `handleTimeUp`, memoised on `showResult`
   * alone, has been rebuilt since loading: the first one was built while no
   * question was loaded, and submits nothing.
   * `requests` are the answers of the check-answer requests in flight
   * (None for a time-up), `followUps` the queued follow-ups, oldest first,
   * and `recorded` the session updates sent so far.
   */
  datatype Play = Play(
    mode: string, total: nat, hasSession: bool,
    index: nat, selected: Option<string>, showResult: bool,
    score: int, lives: int, timeLeft: Option<int>, timeUpBound: bool, completed: bool, correct: nat,
    requests: seq<Option<string>>, followUps: seq<FollowUp>, recorded: seq<SessionUpdate>)

  /** The events: the callbacks of the screen that change its state. */
  datatype Event =
    | Choose(answer: string)
    | Tick
    | Reply(request: nat, server: bool)
    | Resume
    | UseItem(itemType: string, signedIn: bool, resolved: bool)

  /** The state once the questions are loaded: clock and lives set from the mode. */
  function Begin(mode: string, total: nat): (r: Play)
    ensures r.timeLeft == MaxTime(mode) && r.lives == MaxLives(mode)
    ensures r.index == 0 && r.score == 0 && r.correct == 0 && !r.completed && !r.showResult
    ensures r.requests == [] && r.followUps == [] && r.recorded == [] && !r.timeUpBound
  {
    Play(mode, total, mode != "guest", 0, None, false, 0, MaxLives(mode), MaxTime(mode), false, false, 0, [], [], [])
  }

  // ---------------------------------------------------------------- transitions

  /**
   * `handleAnswerSelect`: ignored once the result shows or the game is
   * over; otherwise the answer is selected and, when there is a current
   * question, sent to be checked.
   */
  function Chosen(s: Play, answer: string): (r: Play)
    ensures s.showResult || s.completed ==> r == s
    ensures !s.showResult && !s.completed ==>
      && r.selected == Some(answer)
      && r.requests == s.requests + (if s.index < s.total then [Some(answer)] else [])
      && r.(selected := s.selected, requests := s.requests) == s
  {
    if s.showResult || s.completed then s
    else s.(selected := Some(answer), requests := if s.index < s.total then s.requests + [Some(answer)] else s.requests)
  }

  /**
   * One second of the interval timer, which runs only while there is a
   * clock, no result shows and the game is not over. At one second or
   * less the clock stops at 0 and time-up submits no answer for the
   * current question, provided `handleTimeUp` has been rebuilt since
   * loading; the first one finds no question and submits nothing.
   */
  function Ticked(s: Play): (r: Play)
    ensures s.timeLeft.None? || s.showResult || s.completed ==> r == s
    ensures s.timeLeft.Some? && !s.showResult && !s.completed && s.timeLeft.value > 1 ==>
      r == s.(timeLeft := Some(s.timeLeft.value - 1))
    ensures s.timeLeft.Some? && !s.showResult && !s.completed && s.timeLeft.value <= 1 ==>
      && r.timeLeft == Some(0)
      && r.requests == s.requests + (if s.timeUpBound && s.index < s.total then [None] else [])
      && r.(timeLeft := s.timeLeft, requests := s.requests) == s
  {
    if s.timeLeft.None? || s.showResult || s.completed then s
    else if s.timeLeft.value <= 1 then
      s.(timeLeft := Some(0), requests := if s.timeUpBound && s.index < s.total then s.requests + [None] else s.requests)
    else s.(timeLeft := Some(s.timeLeft.value - 1))
  }

  /** The sequence without its element at `k`. */
  function Without<T>(xs: seq<T>, k: nat): (r: seq<T>)
    requires k < |xs|
    ensures |r| == |xs| - 1
    ensures forall i :: 0 <= i < k ==> r[i] == xs[i]
    ensures forall i :: k <= i < |r| ==> r[i] == xs[i + 1]
  {
    xs[..k] + xs[k + 1..]
  }

  /**
   * The check-answer reply to request `k` (the mutation's `onSuccess`):
   * the result shows; a correct answer adds its points and one correct
   * answer, a wrong one costs a life in "infinite" mode only; a follow-up
   * is queued with the values seen before these changes. A reply to no
   * request changes nothing. Showing the result rebuilds `handleTimeUp`.
   */
  function Answered(s: Play, k: nat, server: bool): (r: Play)
    ensures k >= |s.requests| ==> r == s
    ensures k < |s.requests| && Verdict(s.requests[k], server) ==>
      r.score == s.score + Points(s.mode, s.timeLeft) && r.correct == s.correct + 1 && r.lives == s.lives
    ensures k < |s.requests| && !Verdict(s.requests[k], server) ==>
      && r.score == s.score && r.correct == s.correct
      && r.lives == if s.mode == "infinite" then s.lives - 1 else s.lives
    ensures k < |s.requests| ==>
      && r.showResult && r.timeUpBound
      && r.requests == Without(s.requests, k)
      && r.followUps == s.followUps + [FollowUp(Verdict(s.requests[k], server), Snapshot(s.index, s.score, s.correct, s.lives))]
      && r.(showResult := s.showResult, timeUpBound := s.timeUpBound, score := s.score, correct := s.correct,
            lives := s.lives, requests := s.requests, followUps := s.followUps) == s
  {
    if k >= |s.requests| then s
    else
      var ok := Verdict(s.requests[k], server);
      var seen := Snapshot(s.index, s.score, s.correct, s.lives);
      s.(showResult := true,
         timeUpBound := true,
         score := if ok then s.score + Points(s.mode, s.timeLeft) else s.score,
         correct := if ok then s.correct + 1 else s.correct,
         lives := if !ok && s.mode == "infinite" then s.lives - 1 else s.lives,
         requests := Without(s.requests, k),
         followUps := s.followUps + [FollowUp(ok, seen)])
  }

  /**
   * `endGame`, run with the values `seen`: the game is over and, when a
   * session exists, an update with those values is sent, counting the
   * questions up to and including the one seen.
   */
  function Ended(s: Play, seen: Snapshot): (r: Play)
    ensures r.completed
    ensures s.hasSession ==> r.recorded == s.recorded + [SessionUpdate(seen.score, seen.index + 1, seen.correct, seen.lives)]
    ensures !s.hasSession ==> r.recorded == s.recorded
    ensures r.(completed := s.completed, recorded := s.recorded) == s
  {
    s.(completed := true,
       recorded := if s.hasSession then s.recorded + [SessionUpdate(seen.score, seen.index + 1, seen.correct, seen.lives)] else s.recorded)
  }

  /**
   * `nextQuestion`, run with the values `seen`: after the last question
   * the game ends; otherwise the next question shows, with no answer
   * selected and, in "timed" mode, a full clock.
   */
  function Next(s: Play, seen: Snapshot): (r: Play)
    ensures seen.index + 1 >= s.total ==> r == Ended(s, seen)
    ensures seen.index + 1 < s.total ==>
      && r.index == s.index + 1 && r.selected.None? && !r.showResult
      && r.timeLeft == (if s.mode == "timed" then Some(30) else s.timeLeft)
      && r.(index := s.index, selected := s.selected, showResult := s.showResult, timeLeft := s.timeLeft) == s
  {
    if seen.index + 1 >= s.total then Ended(s, seen)
    else s.(index := s.index + 1, selected := None, showResult := false,
            timeLeft := if MaxTime(s.mode).Some? then MaxTime(s.mode) else s.timeLeft)
  }

  /** The follow-up ends the game: the last question was reached, or the last life of "infinite" mode is lost. */
  predicate Finishes(mode: string, total: nat, f: FollowUp) {
    f.seen.index + 1 >= total || (!f.isCorrect && mode == "infinite" && f.seen.lives <= 1)
  }

  /**
   * The oldest 2-second follow-up fires: it moves on when the answer was
   * correct, the mode is not "infinite" or more than one life was left,
   * and ends the game otherwise.
   */
  function Resumed(s: Play): (r: Play)
    ensures s.followUps == [] ==> r == s
    ensures s.followUps != [] && Finishes(s.mode, s.total, s.followUps[0]) ==>
      r == Ended(s.(followUps := s.followUps[1..]), s.followUps[0].seen)
    ensures s.followUps != [] && !Finishes(s.mode, s.total, s.followUps[0]) ==>
      && r == Next(s.(followUps := s.followUps[1..]), s.followUps[0].seen)
      && r.index == s.index + 1 && r.selected.None? && !r.showResult && r.completed == s.completed
      && r.followUps == s.followUps[1..]
  {
    if s.followUps == [] then s
    else
      var f := s.followUps[0];
      var rest := s.(followUps := s.followUps[1..]);
      if f.isCorrect || s.mode != "infinite" || f.seen.lives > 1 then Next(rest, f.seen) else Ended(rest, f.seen)
  }

  /**
   * `handleUseItem`: nothing without a signed-in user or when the use-item
   * request fails; once it resolves, whatever the server answered,
   * "extra_life" adds a life (above the starting number too), "extra_time"
   * adds 30 seconds when the mode has a clock, and anything else, "50_50"
   * included, changes nothing.
   */
  function ItemUsed(s: Play, itemType: string, signedIn: bool, resolved: bool): (r: Play)
    ensures !signedIn || !resolved ==> r == s
    ensures signedIn && resolved && itemType == "extra_life" ==> r == s.(lives := s.lives + 1)
    ensures signedIn && resolved && itemType == "extra_time" ==>
      r == if s.mode == "timed" then s.(timeLeft := Some(s.timeLeft.GetOr(0) + 30)) else s
    ensures itemType != "extra_life" && itemType != "extra_time" ==> r == s
  {
    if !signedIn || !resolved then s
    else if itemType == "extra_life" then s.(lives := s.lives + 1)
    else if itemType == "extra_time" && MaxTime(s.mode).Some? then s.(timeLeft := Some(s.timeLeft.GetOr(0) + 30))
    else s
  }

  function Step(s: Play, e: Event): Play {
    match e
    case Choose(answer) => Chosen(s, answer)
    case Tick => Ticked(s)
    case Reply(k, server) => Answered(s, k, server)
    case Resume => Resumed(s)
    case UseItem(itemType, signedIn, resolved) => ItemUsed(s, itemType, signedIn, resolved)
  }

  function Run(s: Play, events: seq<Event>): Play
    decreases |events|
  {
    if events == [] then s else Run(Step(s, events[0]), events[1..])
  }

  // ---------------------------------------------------------------- properties

  /**
   * What every reachable state satisfies: each correct answer is worth at
   * least 100 points, in the state, in every queued follow-up and in every
   * recorded update; the clock runs only in "timed" mode and never below
   * 0; outside "infinite" mode no life is ever lost.
   */
  predicate Inv(s: Play) {
    && s.score >= 100 * s.correct
    && (forall f <- s.followUps :: f.seen.score >= 100 * f.seen.correct)
    && (forall u <- s.recorded :: u.score >= 100 * u.correctAnswers && u.questionsAnswered >= 1)
    && (s.mode != "timed" ==> s.timeLeft.None?)
    && (s.timeLeft.Some? ==> s.timeLeft.value >= 0)
    && (s.mode != "infinite" ==> s.lives >= 1)
  }

  lemma BeginInv(mode: string, total: nat)
    ensures Inv(Begin(mode, total))
  {
  }

  /** Every event keeps the invariant. */
  lemma StepKeepsInv(s: Play, e: Event)
    requires Inv(s)
    ensures Inv(Step(s, e))
  {
    match e
    case Choose(answer) =>
    case Tick =>
    case Reply(k, server) => AnsweredKeepsInv(s, k, server);
    case Resume => ResumedKeepsInv(s);
    case UseItem(itemType, signedIn, resolved) =>
  }

  /** A result adds at least 100 points per correct answer and queues a follow-up that saw the invariant hold. */
  lemma AnsweredKeepsInv(s: Play, k: nat, server: bool)
    requires Inv(s)
    ensures Inv(Answered(s, k, server))
  {
    if k < |s.requests| {
      var ok := Verdict(s.requests[k], server);
      var f := FollowUp(ok, Snapshot(s.index, s.score, s.correct, s.lives));
      var r := Answered(s, k, server);
      assert r.followUps == s.followUps + [f];
      assert r.score >= 100 * r.correct by {
        if ok {
          assert Points(s.mode, s.timeLeft) >= 100;
        }
      }
    }
  }

  /** A follow-up records only values that kept the invariant. */
  lemma ResumedKeepsInv(s: Play)
    requires Inv(s)
    ensures Inv(Resumed(s))
  {
    if s.followUps != [] {
      var f := s.followUps[0];
      assert f in s.followUps;
      var rest := s.(followUps := s.followUps[1..]);
      assert forall g <- rest.followUps :: g in s.followUps;
      assert Inv(rest);
      assert Inv(Ended(rest, f.seen));
    }
  }

  /** Any run of events keeps the invariant. */
  lemma {:induction false} RunKeepsInv(s: Play, events: seq<Event>)
    requires Inv(s)
    ensures Inv(Run(s, events))
    decreases |events|
  {
    if events != [] {
      StepKeepsInv(s, events[0]);
      RunKeepsInv(Step(s, events[0]), events[1..]);
    }
  }

  /**
   * No event takes points, correct answers or sent updates away, and a
   * finished game stays finished.
   */
  lemma StepNeverUndoes(s: Play, e: Event)
    ensures Step(s, e).score >= s.score
    ensures Step(s, e).correct >= s.correct
    ensures s.completed ==> Step(s, e).completed
    ensures s.recorded <= Step(s, e).recorded
  {
    match e
    case Choose(_) =>
    case Tick =>
    case Reply(k, server) =>
    case Resume =>
    case UseItem(_, _, _) =>
  }

  /** Over any run the score, the correct answers and the sent updates only grow. */
  lemma {:induction false} RunNeverUndoes(s: Play, events: seq<Event>)
    ensures Run(s, events).score >= s.score
    ensures Run(s, events).correct >= s.correct
    ensures s.completed ==> Run(s, events).completed
    ensures s.recorded <= Run(s, events).recorded
    decreases |events|
  {
    if events != [] {
      var t := Step(s, events[0]);
      StepNeverUndoes(s, events[0]);
      RunNeverUndoes(t, events[1..]);
    }
  }

  /**
   * A running game ends exactly on a follow-up that finishes it: after
   * the last question, or on a wrong answer in "infinite" mode seen with
   * at most one life left. In the other modes a wrong answer never ends
   * the game before the last question.
   */
  lemma EndsExactlyWhen(s: Play, e: Event)
    requires !s.completed
    ensures Step(s, e).completed <==> e.Resume? && s.followUps != [] && Finishes(s.mode, s.total, s.followUps[0])
  {
  }

  /** A time-up reply scores nothing; in "infinite" mode it costs a life. */
  lemma TimeUpIsWrong(s: Play, k: nat, server: bool)
    requires k < |s.requests| && s.requests[k].None?
    ensures Step(s, Reply(k, server)).score == s.score
    ensures Step(s, Reply(k, server)).correct == s.correct
    ensures Step(s, Reply(k, server)).lives == if s.mode == "infinite" then s.lives - 1 else s.lives
  {
  }

  /**
   * Before any result has shown, `handleTimeUp` is the one built before the
   * questions loaded: the clock stops at 0 but nothing is submitted, and an
   * answer chosen afterwards is still checked and scores 100 points.
   */
  lemma FirstTimeUpIsLost(s: Play)
    requires s.mode == "timed" && s.timeLeft == Some(1) && !s.showResult && !s.completed && !s.timeUpBound
    requires s.requests == [] && s.index < s.total
    ensures Step(s, Tick).timeLeft == Some(0) && Step(s, Tick).requests == []
    ensures var t := Run(s, [Tick, Choose("a"), Reply(0, true)]);
      t.score == s.score + 100 && t.correct == s.correct + 1
  {
    var s1 := Step(s, Tick);
    var s2 := Step(s1, Choose("a"));
    assert s2.requests == [Some("a")] && s2.timeLeft == Some(0);
    var s3 := Step(s2, Reply(0, true));
    assert Run(s, [Tick, Choose("a"), Reply(0, true)]) == s3 by {
      assert [Tick, Choose("a"), Reply(0, true)][1..] == [Choose("a"), Reply(0, true)];
      assert [Choose("a"), Reply(0, true)][1..] == [Reply(0, true)];
    }
  }

  /**
   * The update sent at the end carries the values the result callback saw
   * before applying its own changes: answering the only question of a
   * "timed" game correctly with the full clock shows 300 points, and
   * records 0.
   */
  lemma EndRecordsValuesSeenBefore()
    ensures var s := Run(Begin("timed", 1), [Choose("a"), Reply(0, true), Resume]);
      && s.completed && s.score == 300 && s.correct == 1
      && s.recorded == [SessionUpdate(0, 1, 0, 1)]
  {
    var s0 := Begin("timed", 1);
    var s1 := Step(s0, Choose("a"));
    assert s1.requests == [Some("a")];
    var s2 := Step(s1, Reply(0, true));
    assert s2.score == 300 && s2.followUps == [FollowUp(true, Snapshot(0, 0, 0, 1))];
    var s3 := Step(s2, Resume);
    assert s3.recorded == [SessionUpdate(0, 1, 0, 1)];
    assert Run(s0, [Choose("a"), Reply(0, true), Resume]) == s3 by {
      assert [Choose("a"), Reply(0, true), Resume][1..] == [Reply(0, true), Resume];
      assert [Reply(0, true), Resume][1..] == [Resume];
    }
  }

  /**
   * The screen grants an extra life once the use-item request resolves,
   * even when the store refused it because the user holds none.
   */
  lemma ExtraLifeWithoutStock(s: Play, t: Storage.Tables, userId: Storage.UserId)
    requires Storage.QuantityOf(t.inventory, userId, "extra_life").None?
    ensures !Storage.UsedInventory(t, userId, "extra_life", 1).ok
    ensures Step(s, UseItem("extra_life", true, true)).lives == s.lives + 1
  {
  }

  // ---------------------------------------------------------------- the component

  /** The game screen: its state fields, changed by its callbacks. */
  class Game {
    const mode: string
    const total: nat
    const hasSession: bool
    var index: nat
    var selected: Option<string>
    var showResult: bool
    var score: int
    var lives: int
    var timeLeft: Option<int>
    var timeUpBound: bool
    var completed: bool
    var correct: nat
    var requests: seq<Option<string>>
    var followUps: seq<FollowUp>
    var recorded: seq<SessionUpdate>

    function State(): Play
      reads this
    {
      Play(mode, total, hasSession, index, selected, showResult, score, lives, timeLeft, timeUpBound, completed, correct,
           requests, followUps, recorded)
    }

    /** Initialisation once `total` questions have loaded. */
    constructor(mode: string, total: nat)
      ensures State() == Begin(mode, total)
      ensures Inv(State())
    {
      this.mode := mode;
      this.total := total;
      hasSession := mode != "guest";
      index := 0;
      selected := None;
      showResult := false;
      score := 0;
      lives := MaxLives(mode);
      timeLeft := MaxTime(mode);
      timeUpBound := false;
      completed := false;
      correct := 0;
      requests := [];
      followUps := [];
      recorded := [];
    }

    method Select(answer: string)
      modifies this
      ensures State() == Chosen(old(State()), answer)
    {
      if showResult || completed {
        return;
      }
      selected := Some(answer);
      if index < total {
        requests := requests + [Some(answer)];
      }
    }

    method Tick()
      modifies this
      ensures State() == Ticked(old(State()))
    {
      if timeLeft.None? || showResult || completed {
        return;
      }
      if timeLeft.value <= 1 {
        timeLeft := Some(0);
        if timeUpBound && index < total {
          requests := requests + [None];
        }
      } else {
        timeLeft := Some(timeLeft.value - 1);
      }
    }

    method Reply(k: nat, server: bool)
      modifies this
      ensures State() == Answered(old(State()), k, server)
    {
      if k >= |requests| {
        return;
      }
      var ok := Verdict(requests[k], server);
      var seen := Snapshot(index, score, correct, lives);
      showResult := true;
      timeUpBound := true;
      if ok {
        score := score + Points(mode, timeLeft);
        correct := correct + 1;
      } else if mode == "infinite" {
        lives := lives - 1;
      }
      requests := Without(requests, k);
      followUps := followUps + [FollowUp(ok, seen)];
    }

    method Resume()
      modifies this
      ensures State() == Resumed(old(State()))
    {
      if followUps == [] {
        return;
      }
      var f := followUps[0];
      followUps := followUps[1..];
      if f.isCorrect || mode != "infinite" || f.seen.lives > 1 {
        NextQuestion(f.seen);
      } else {
        EndGame(f.seen);
      }
    }

    method NextQuestion(seen: Snapshot)
      modifies this
      ensures State() == Next(old(State()), seen)
    {
      if seen.index + 1 >= total {
        EndGame(seen);
      } else {
        index := index + 1;
        selected := None;
        showResult := false;
        if MaxTime(mode).Some? {
          timeLeft := MaxTime(mode);
        }
      }
    }

    method EndGame(seen: Snapshot)
      modifies this
      ensures State() == Ended(old(State()), seen)
    {
      completed := true;
      if hasSession {
        recorded := recorded + [SessionUpdate(seen.score, seen.index + 1, seen.correct, seen.lives)];
      }
    }

    method UseItem(itemType: string, signedIn: bool, resolved: bool)
      modifies this
      ensures State() == ItemUsed(old(State()), itemType, signedIn, resolved)
    {
      if !signedIn || !resolved {
        return;
      }
      if itemType == "extra_life" {
        lives := lives + 1;
      } else if itemType == "extra_time" && MaxTime(mode).Some? {
        timeLeft := Some(timeLeft.GetOr(0) + 30);
      }
    }

    /** Dispatches one event to its callback. */
    method Handle(e: Event)
      modifies this
      ensures State() == Step(old(State()), e)
      ensures Inv(old(State())) ==> Inv(State())
    {
      if Inv(State()) {
        StepKeepsInv(State(), e);
      }
      match e
      case Choose(answer) => Select(answer);
      case Tick => Tick();
      case Reply(k, server) => Reply(k, server);
      case Resume => Resume();
      case UseItem(itemType, signedIn, resolved) => UseItem(itemType, signedIn, resolved);
    }
  }
}
