/**
 * The number-guessing component (components/number-guessing.tsx): its eight
 * state fields, the dependency pair React remembers for its effect, and one
 * method per event handler. Each setter call of a handler is an assignment to
 * the field it sets; every method is specified by the matching
 * GuessingSession function, applied to the state before the call.
 */
module NumberGuessing {
  import opened JsParseInt
  import opened GuessingSession

  class Component {
    var gameStarted: bool
    var gameOver: bool
    var paused: bool
    var targetNumber: int
    var userGuess: PendingGuess
    var attempts: nat
    var hint: string
    var errorMessage: string
    /** (gameStarted, paused) as the effect saw them at its last run. */
    var effectDeps: Deps

    function Snapshot(): Session
      reads this
    {
      Session(gameStarted, gameOver, paused, targetNumber, userGuess, attempts,
              hint, errorMessage, effectDeps)
    }

    /** Mounting: the `useState` initial values, then the first effect run. */
    constructor ()
      ensures Snapshot() == Initial()
      ensures Consistent(Snapshot())
    {
      gameStarted := false;
      gameOver := false;
      paused := false;
      targetNumber := 0;
      userGuess := Blank;
      attempts := 0;
      hint := "";
      errorMessage := "";
      effectDeps := Deps(false, false);
    }

    method HandleStartGame()
      modifies this
      ensures Snapshot() == StartGame(old(Snapshot()))
    {
      gameStarted := true;
      gameOver := false;
      attempts := 0;
      paused := false;
      hint := "";
      errorMessage := "";
    }

    method HandlePauseGame()
      modifies this
      ensures Snapshot() == PauseGame(old(Snapshot()))
    {
      paused := true;
    }

    method HandleResumeGame()
      modifies this
      ensures Snapshot() == ResumeGame(old(Snapshot()))
    {
      paused := false;
    }

    /** Returns whether the confetti was fired. */
    method HandleGuess() returns (confetti: bool)
      modifies this
      ensures Snapshot() == SubmitGuess(old(Snapshot()))
      ensures confetti == Wins(old(Snapshot()))
    {
      confetti := false;
      if userGuess.Num? && (userGuess.value < MinNumber || userGuess.value > MaxNumber) {
        errorMessage := RangeError;
        return;
      }
      errorMessage := "";
      if userGuess.Num? && userGuess.value == targetNumber {
        gameOver := true;
        hint := "";
        confetti := true;
      } else if userGuess.Num? {
        hint := if userGuess.value < targetNumber then HigherHint else LowerHint;
        attempts := attempts + 1;
      }
    }

    method HandleTryAgain()
      modifies this
      ensures Snapshot() == TryAgainGame(old(Snapshot()))
    {
      gameStarted := false;
      gameOver := false;
      userGuess := Blank;
      attempts := 0;
      hint := "";
      errorMessage := "";
    }

    method HandleUserGuessChange(value: string)
      modifies this
      ensures Snapshot() == UserGuessChange(old(Snapshot()), value)
    {
      if value == "" {
        userGuess := Blank;
        return;
      }
      var parsedValue := ParseInt(value);
      if parsedValue.Int? {
        userGuess := Num(parsedValue.value);
      } else {
        userGuess := Blank;
      }
    }

    /** The `useEffect` after a render; `r` is the draw of `Math.random`. */
    method RunEffect(r: int)
      requires InRange(r)
      modifies this
      ensures Snapshot() == Effect(old(Snapshot()), r)
    {
      if effectDeps != Deps(gameStarted, paused) {
        effectDeps := Deps(gameStarted, paused);
        if gameStarted && !paused {
          targetNumber := r;
        }
      }
    }

    /** One user event: the handler it reaches, then the effect. */
    method Dispatch(e: Event, r: int) returns (confetti: bool)
      requires InRange(r)
      modifies this
      ensures Snapshot() == Step(old(Snapshot()), e, r)
      ensures confetti == (e.Guess? && Wins(old(Snapshot())))
      ensures old(Consistent(Snapshot())) ==> Consistent(Snapshot())
    {
      ghost var before := Snapshot();
      confetti := false;
      match e {
        case Start => HandleStartGame();
        case Pause => HandlePauseGame();
        case Resume => HandleResumeGame();
        case Guess => confetti := HandleGuess();
        case TryAgain => HandleTryAgain();
        case InputChange(text) => HandleUserGuessChange(text);
      }
      RunEffect(r);
      if Consistent(before) {
        StepKeepsConsistent(before, e, r);
      }
    }
  }

  /** One round of a running game: type the digit `c`, then press Guess. */
  method PlayDigit(game: Component, c: char, r: int) returns (confetti: bool)
    requires IsDigit(c) && InRange(r) && Consistent(game.Snapshot())
    modifies game
    ensures game.Snapshot() == SubmitGuess(old(game.Snapshot()).(userGuess := Num(DigitValue(c))))
    ensures confetti == Wins(old(game.Snapshot()).(userGuess := Num(DigitValue(c))))
    ensures Consistent(game.Snapshot())
  {
    GuessOfDigit(c);
    var _ := game.Dispatch(InputChange([c]), r);
    confetti := game.Dispatch(Guess, r);
  }

  /**
   * A game whose draw is 7: guesses 3, 9 and 7 give "Higher!", then
   * "Lower!", then the win, with two attempts counted.
   */
  method PlaySampleGame() returns (hints: seq<string>, attempts: nat, gameOver: bool, confetti: bool)
    ensures hints == [HigherHint, LowerHint, ""]
    ensures attempts == 2 && gameOver && confetti
  {
    var game := new Component();
    var _ := game.Dispatch(Start, 7);
    assert game.targetNumber == 7;
    var _ := PlayDigit(game, '3', 7);
    assert game.hint == HigherHint && game.attempts == 1;
    hints := [game.hint];
    var _ := PlayDigit(game, '9', 7);
    assert game.hint == LowerHint && game.attempts == 2;
    hints := hints + [game.hint];
    confetti := PlayDigit(game, '7', 7);
    hints := hints + [game.hint];
    attempts, gameOver := game.attempts, game.gameOver;
  }

  /** A guess of 15 shows the range message and counts no attempt. */
  method PlayOutOfRangeGuess() returns (errorMessage: string, attempts: nat, gameOver: bool)
    ensures errorMessage == RangeError && attempts == 0 && !gameOver
  {
    var game := new Component();
    var _ := game.Dispatch(Start, 4);
    GuessOfDigits("15");
    assert DigitsValue("15") == 15 by {
      assert "15"[..1] == "1";
    }
    var _ := game.Dispatch(InputChange("15"), 4);
    var _ := game.Dispatch(Guess, 4);
    errorMessage, attempts, gameOver := game.errorMessage, game.attempts, game.gameOver;
  }
}
