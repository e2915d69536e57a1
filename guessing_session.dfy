/**
 * The state of the number-guessing component as a value, and one function per
 * event handler saying what that handler makes of it. The class in
 * NumberGuessing holds the same state in mutable fields; each of its methods
 * is specified by the matching GuessingSession function.
 *
 * The component's `useEffect` draws a new target whenever the pair
 * (gameStarted, paused) differs from the pair it saw after the previous
 * render and the game is then started and not paused. React remembers that
 * pair between renders; the model keeps it in the field `effectDeps`. The
 * random draw is a parameter `r` in 1..10 instead of `Math.random`.
 */
module GuessingSession {
  import opened JsParseInt

  const MinNumber := 1
  const MaxNumber := 10

  const RangeError := "Please enter a number between 1 and 10."
  const HigherHint := "Higher!"
  const LowerHint := "Lower!"

  /** The pending guess: an integer, or empty (the empty string in the source). */
  datatype PendingGuess = Blank | Num(value: int)

  /** The effect's dependency values as React saw them at its last run. */
  datatype Deps = Deps(started: bool, paused: bool)

  datatype Session = Session(
    gameStarted: bool,
    gameOver: bool,
    paused: bool,
    targetNumber: int,
    userGuess: PendingGuess,
    attempts: nat,
    hint: string,
    errorMessage: string,
    effectDeps: Deps)

  /** The events the rendered page can deliver to the component. */
  datatype Event = Start | Pause | Resume | Guess | TryAgain | InputChange(text: string)

  predicate InRange(n: int) {
    MinNumber <= n <= MaxNumber
  }

  /** The `useState` initial values; the effect's first run saw (false, false). */
  function Initial(): Session {
    Session(false, false, false, 0, Blank, 0, "", "", Deps(false, false))
  }

  /** handleStartGame: a fresh session; the pending guess and the target are kept. */
  function StartGame(s: Session): (t: Session)
    ensures t.gameStarted && !t.gameOver && !t.paused
    ensures t.attempts == 0 && t.hint == "" && t.errorMessage == ""
    ensures t.userGuess == s.userGuess && t.targetNumber == s.targetNumber
    ensures t.effectDeps == s.effectDeps
  {
    s.(gameStarted := true, gameOver := false, attempts := 0, paused := false,
       hint := "", errorMessage := "")
  }

  /** handlePauseGame: only `paused` changes. */
  function PauseGame(s: Session): (t: Session)
    ensures t.paused && t == s.(paused := t.paused)
  {
    s.(paused := true)
  }

  /** handleResumeGame: only `paused` changes. */
  function ResumeGame(s: Session): (t: Session)
    ensures !t.paused && t == s.(paused := t.paused)
  {
    s.(paused := false)
  }

  /** The hint for a wrong guess: which way the target lies. */
  function HintFor(guess: int, target: int): (h: string)
    ensures h == HigherHint <==> guess < target
    ensures h == LowerHint <==> guess >= target
  {
    if guess < target then HigherHint else LowerHint
  }

  /** The guess is a number, and outside 1..10. */
  predicate OutOfRange(s: Session) {
    s.userGuess.Num? && !InRange(s.userGuess.value)
  }

  /** The guess hits the target: the game is won and confetti is fired. */
  predicate Wins(s: Session) {
    s.userGuess.Num? && InRange(s.userGuess.value) && s.userGuess.value == s.targetNumber
  }

  /** The guess is in 1..10 and misses the target. */
  predicate Misses(s: Session) {
    s.userGuess.Num? && InRange(s.userGuess.value) && s.userGuess.value != s.targetNumber
  }

  /** handleGuess. Nothing here looks at `paused` or `gameStarted`. */
  function SubmitGuess(s: Session): (t: Session)
    ensures t.userGuess == s.userGuess && t.targetNumber == s.targetNumber
    ensures t.gameStarted == s.gameStarted && t.paused == s.paused
    ensures t.effectDeps == s.effectDeps
    ensures OutOfRange(s) ==>
      t.errorMessage == RangeError && t.attempts == s.attempts &&
      t.hint == s.hint && t.gameOver == s.gameOver
    ensures s.userGuess.Blank? ==> t == s.(errorMessage := "")
    ensures Wins(s) ==>
      t.gameOver && t.hint == "" && t.errorMessage == "" && t.attempts == s.attempts
    ensures Misses(s) ==>
      t.errorMessage == "" && t.attempts == s.attempts + 1 && t.gameOver == s.gameOver &&
      (t.hint == HigherHint <==> s.userGuess.value < s.targetNumber) &&
      (t.hint == LowerHint <==> s.userGuess.value > s.targetNumber)
  {
    if OutOfRange(s) then
      s.(errorMessage := RangeError)
    else
      var cleared := s.(errorMessage := "");
      match s.userGuess
      case Num(g) =>
        if g == s.targetNumber then
          cleared.(gameOver := true, hint := "")
        else
          cleared.(hint := HintFor(g, s.targetNumber), attempts := s.attempts + 1)
      case Blank => cleared
  }

  /** handleTryAgain: back to the start screen; `paused` and the target are kept. */
  function TryAgainGame(s: Session): (t: Session)
    ensures !t.gameStarted && !t.gameOver && t.userGuess == Blank
    ensures t.attempts == 0 && t.hint == "" && t.errorMessage == ""
    ensures t.paused == s.paused && t.targetNumber == s.targetNumber
    ensures t.effectDeps == s.effectDeps
  {
    s.(gameStarted := false, gameOver := false, userGuess := Blank, attempts := 0,
       hint := "", errorMessage := "")
  }

  /** The pending guess the input handler makes of the raw text. */
  function GuessOfText(text: string): (g: PendingGuess)
    ensures text == "" ==> g == Blank
    ensures text != "" ==> (g.Num? <==> ParseInt(text).Int?)
    ensures g.Num? ==> ParseInt(text) == Int(g.value)
  {
    if text == "" then Blank
    else
      match ParseInt(text)
      case Int(v) => Num(v)
      case NaN => Blank
  }

  /** handleUserGuessChange: only the pending guess changes. */
  function UserGuessChange(s: Session, text: string): (t: Session)
    ensures t == s.(userGuess := t.userGuess)
    ensures t.userGuess == GuessOfText(text)
    ensures text == "" ==> t.userGuess == Blank
  {
    s.(userGuess := GuessOfText(text))
  }

  /** The effect's dependency pair has changed since it last ran. */
  predicate DepsChanged(s: Session) {
    s.effectDeps != Deps(s.gameStarted, s.paused)
  }

  /** The `useEffect` run after a render, with `r` standing for the random draw. */
  function Effect(s: Session, r: int): (t: Session)
    requires InRange(r)
    ensures t.effectDeps == Deps(s.gameStarted, s.paused)
    ensures t == s.(targetNumber := t.targetNumber, effectDeps := t.effectDeps)
    ensures t.targetNumber != s.targetNumber ==> t.targetNumber == r
    ensures DepsChanged(s) && s.gameStarted && !s.paused ==> t.targetNumber == r
    ensures !DepsChanged(s) || !s.gameStarted || s.paused ==> t.targetNumber == s.targetNumber
  {
    if DepsChanged(s) then
      var seen := s.(effectDeps := Deps(s.gameStarted, s.paused));
      if s.gameStarted && !s.paused then seen.(targetNumber := r) else seen
    else s
  }

  function Handle(s: Session, e: Event): Session {
    match e
    case Start => StartGame(s)
    case Pause => PauseGame(s)
    case Resume => ResumeGame(s)
    case Guess => SubmitGuess(s)
    case TryAgain => TryAgainGame(s)
    case InputChange(text) => UserGuessChange(s, text)
  }

  /**
   * One event: its handler, the render it causes, then the effect. Afterwards
   * the effect has seen the current (gameStarted, paused); the effect changes
   * nothing of the handler's result but the target and that remembered pair,
   * and a target that changed is the draw.
   */
  function Step(s: Session, e: Event, r: int): (t: Session)
    requires InRange(r)
    ensures t.effectDeps == Deps(t.gameStarted, t.paused)
    ensures t == Handle(s, e).(targetNumber := t.targetNumber, effectDeps := t.effectDeps)
    ensures t.targetNumber != s.targetNumber ==> t.targetNumber == r
  {
    Effect(Handle(s, e), r)
  }

  predicate AllInRange(draws: seq<int>) {
    forall i :: 0 <= i < |draws| ==> InRange(draws[i])
  }

  /** A sequence of events, the i-th one with the random draw draws[i]. */
  function Run(s: Session, events: seq<Event>, draws: seq<int>): Session
    requires |draws| == |events| && AllInRange(draws)
    decreases |events|
  {
    if events == [] then s else Run(Step(s, events[0], draws[0]), events[1..], draws[1..])
  }

  /**
   * After every event: the effect has seen the current (gameStarted, paused),
   * and a started, unpaused game has a target in 1..10.
   */
  predicate Consistent(s: Session) {
    && s.effectDeps == Deps(s.gameStarted, s.paused)
    && (s.gameStarted && !s.paused ==> InRange(s.targetNumber))
  }

  lemma InitialConsistent()
    ensures Consistent(Initial())
  {
  }

  lemma StepKeepsConsistent(s: Session, e: Event, r: int)
    requires Consistent(s) && InRange(r)
    ensures Consistent(Step(s, e, r))
  {
  }

  lemma {:induction false} RunKeepsConsistent(s: Session, events: seq<Event>, draws: seq<int>)
    requires Consistent(s)
    requires |draws| == |events| && AllInRange(draws)
    ensures Consistent(Run(s, events, draws))
    decreases |events|
  {
    if events != [] {
      StepKeepsConsistent(s, events[0], draws[0]);
      RunKeepsConsistent(Step(s, events[0], draws[0]), events[1..], draws[1..]);
    }
  }

  /** Whatever the events and draws, a started, unpaused game has a target in 1..10. */
  lemma ReachableTargetInRange(events: seq<Event>, draws: seq<int>)
    requires |draws| == |events| && AllInRange(draws)
    ensures var t := Run(Initial(), events, draws);
      t.gameStarted && !t.paused ==> InRange(t.targetNumber)
  {
    InitialConsistent();
    RunKeepsConsistent(Initial(), events, draws);
  }

  /** Start (reachable only from the start screen), then the effect: a fresh game. */
  lemma StartDrawsTarget(s: Session, r: int)
    requires Consistent(s) && !s.gameStarted && InRange(r)
    ensures var t := Step(s, Start, r);
      && t.gameStarted && !t.gameOver && !t.paused
      && t.attempts == 0 && t.hint == "" && t.errorMessage == ""
      && t.targetNumber == r && InRange(t.targetNumber)
      && t.userGuess == s.userGuess
  {
  }

  /** Pause changes only `paused`; the effect runs but draws nothing. */
  lemma PauseKeepsTarget(s: Session, r: int)
    requires Consistent(s) && InRange(r)
    ensures Step(s, Pause, r) == s.(paused := true, effectDeps := Deps(s.gameStarted, true))
  {
  }

  /** Resume of a paused game replaces the target with the fresh draw. */
  lemma ResumeRedrawsTarget(s: Session, r: int)
    requires Consistent(s) && s.gameStarted && s.paused && InRange(r)
    ensures Step(s, Resume, r) == s.(paused := false, targetNumber := r, effectDeps := Deps(true, false))
  {
  }

  /** Guessing never triggers the effect, so the target stays put. */
  lemma GuessKeepsTarget(s: Session, r: int)
    requires Consistent(s) && InRange(r)
    ensures Step(s, Guess, r) == SubmitGuess(s)
  {
  }

  /** Typing never triggers the effect either. */
  lemma InputKeepsTarget(s: Session, text: string, r: int)
    requires Consistent(s) && InRange(r)
    ensures Step(s, InputChange(text), r) == UserGuessChange(s, text)
  {
  }

  /** Try Again: back to the start screen, no new target, `paused` unchanged. */
  lemma TryAgainKeepsTarget(s: Session, r: int)
    requires Consistent(s) && InRange(r)
    ensures var t := Step(s, TryAgain, r);
      && !t.gameStarted && !t.gameOver && t.userGuess == Blank
      && t.attempts == 0 && t.hint == "" && t.errorMessage == ""
      && t.paused == s.paused && t.targetNumber == s.targetNumber
  {
  }

  /** A winning guess ends the game even while it is paused. */
  lemma GuessWinsWhilePaused(s: Session, r: int)
    requires Consistent(s) && s.gameStarted && s.paused && Wins(s) && InRange(r)
    ensures var t := Step(s, Guess, r); t.gameOver && t.paused
  {
  }

  /** `attempts` counts the in-range misses since the last Start or Try Again. */
  lemma AttemptsCountMisses(s: Session, e: Event, r: int)
    requires InRange(r)
    ensures Step(s, e, r).attempts ==
      if e.Start? || e.TryAgain? then 0
      else if e.Guess? && Misses(s) then s.attempts + 1
      else s.attempts
  {
  }

  /** Only a winning guess ends a game. */
  lemma GameEndsOnlyByWin(s: Session, e: Event, r: int)
    requires InRange(r) && !s.gameOver
    ensures Step(s, e, r).gameOver <==> e.Guess? && Wins(s)
  {
  }

  /**
   * The events the rendered page offers: Start on the start screen; Pause
   * or Resume, the input and Guess while a game is on; Try Again on the
   * game-over panel.
   */
  predicate Offered(s: Session, e: Event) {
    match e
    case Start => !s.gameStarted
    case Pause => s.gameStarted && !s.gameOver && !s.paused
    case Resume => s.gameStarted && !s.gameOver && s.paused
    case Guess => s.gameStarted && !s.gameOver
    case InputChange(_) => s.gameStarted && !s.gameOver
    case TryAgain => s.gameOver
  }

  /** The i-th event is offered by the page as rendered before it. */
  predicate OfferedRun(s: Session, events: seq<Event>, draws: seq<int>)
    requires |draws| == |events| && AllInRange(draws)
    decreases |events|
  {
    events == [] ||
    (Offered(s, events[0]) && OfferedRun(Step(s, events[0], draws[0]), events[1..], draws[1..]))
  }

  /**
   * A finished game is always a started one, so the Start button and the
   * Game Over panel are never shown together; and while the game is not
   * started, attempts is 0 and the hint and the error are empty.
   */
  predicate ScreenConsistent(s: Session) {
    && (s.gameOver ==> s.gameStarted)
    && (!s.gameStarted ==> s.attempts == 0 && s.hint == "" && s.errorMessage == "")
  }

  lemma {:induction false} OfferedRunKeepsScreen(s: Session, events: seq<Event>, draws: seq<int>)
    requires ScreenConsistent(s)
    requires |draws| == |events| && AllInRange(draws)
    requires OfferedRun(s, events, draws)
    ensures ScreenConsistent(Run(s, events, draws))
    decreases |events|
  {
    if events != [] {
      var t := Step(s, events[0], draws[0]);
      assert ScreenConsistent(t);
      OfferedRunKeepsScreen(t, events[1..], draws[1..]);
    }
  }

  /**
   * The input handler: the decimal text of an integer, with leading white
   * space and a trailing non-digit tail, becomes that integer; text with no
   * digits after the white space and sign becomes empty.
   */
  lemma {:induction false} GuessOfDecimalText(ws: string, sign: string, n: nat, rest: string)
    requires AllWhiteSpace(ws) && IsSign(sign)
    requires rest == [] || !IsDigit(rest[0])
    ensures GuessOfText(ws + sign + Decimal(n) + rest) == Num(Signed(sign, n))
  {
    ParseDecimal(ws, sign, n, rest);
  }

  /** Plain digits, as a number field delivers them, become their value. */
  lemma {:induction false} GuessOfDigits(d: string)
    requires d != [] && AllDigits(d)
    ensures GuessOfText(d) == Num(DigitsValue(d))
  {
    ParseDigits("", "", d, "");
    assert "" + "" + d + "" == d;
  }

  lemma GuessOfDigit(c: char)
    requires IsDigit(c)
    ensures GuessOfText([c]) == Num(DigitValue(c))
  {
    GuessOfDigits([c]);
    assert [c][..0] == [];
  }

  lemma {:induction false} GuessOfTextWithoutDigits(ws: string, sign: string, rest: string)
    requires AllWhiteSpace(ws) && IsSign(sign)
    requires rest == [] || !IsDigit(rest[0])
    requires sign == "" && rest != [] ==> !IsWhiteSpace(rest[0]) && rest[0] != '+' && rest[0] != '-'
    ensures GuessOfText(ws + sign + rest) == Blank
  {
    ParseNoDigits(ws, sign, rest);
  }
}
