# Number guessing game, modelled in Dafny

This project models the one React component of the number-guessing game,
`components/number-guessing.tsx`. The system picks a secret target in 1..10.
The player types a guess and presses Guess. A wrong guess gets "Higher!" or
"Lower!" and counts as an attempt. The right guess ends the game. Try Again
goes back to the start screen.

The model has three modules:

- `JsParseInt` (`js_parse_int.dfy`) models JavaScript's `parseInt(text, 10)`,
  which the input handler calls. It skips leading white space, reads one
  optional sign, then reads the longest run of decimal digits. No digits gives
  NaN. It is proved against an independent decimal rendering `Decimal`:
  rendered text parses back to the same integer.
- `GuessingSession` (`guessing_session.dfy`) holds the component state as a
  value, `Session`. There is one function per event handler, plus `Effect` for
  the `useEffect` that draws the target. `Step` runs one event: the handler,
  then the effect. `Run` runs a sequence of events. The lemmas state what each
  handler promises and which invariants every reachable state keeps.
- `NumberGuessing` (`number_guessing.dfy`) is the component as a class,
  `Component`. It holds the eight state fields in mutable fields, and each
  handler is a method that assigns the fields its setters set. Each method's
  postcondition ties the new state to the matching `GuessingSession` function
  of the old state. Client methods replay sample games against these
  postconditions.

The effect (`number-guessing.tsx:22-28`) fires only when the pair
`(gameStarted, paused)` differs from the pair it saw after the previous
render. React keeps that pair between renders, and the model keeps it in the
field `effectDeps`. Because of this, Start and Resume draw a new target, while
Guess, typing and Pause do not. The random draw is a parameter `r` with
1 ≤ r ≤ 10, standing in for `Math.floor(Math.random() * 10) + 1`.

The source's quirks are kept as they are, where one might expect otherwise:

- Guess does not check `paused`. A winning guess ends a paused game
  (`GuessWinsWhilePaused`).
- Resume draws a new target (`ResumeRedrawsTarget`).
- Try Again keeps `paused` and `targetNumber`. Start keeps `userGuess`.
- A Guess with an empty input only clears `errorMessage`.

## Model

| member | source | states |
|---|---|---|
| `JsParseInt.ParseInt` | components/number-guessing.tsx:100 | text that is empty or only white space gives NaN, and a negative result needs a `-` after the white space; ParseDigits, ParseDecimal and ParseNoDigits characterise the rest |
| `JsParseInt.TrimStart` | components/number-guessing.tsx:100 | after trimming, the text is empty or starts with a non-white-space character |
| `JsParseInt.TrimStartDropsWhiteSpace` | components/number-guessing.tsx:100 | trimming removes only a leading run of white space; the result is a suffix of the input |
| `JsParseInt.DigitPrefix` | components/number-guessing.tsx:100 | the digits parseInt reads are the longest all-digit prefix: a prefix of the input, all digits, and not followed by a digit |
| `JsParseInt.TrimWhiteSpacePrefix` | components/number-guessing.tsx:100 | any run of white space in front of a non-white-space text is removed exactly |
| `JsParseInt.DigitPrefixOfDigits` | components/number-guessing.tsx:100 | a run of digits followed by a non-digit is read exactly up to that non-digit |
| `JsParseInt.ParseAfterWhiteSpace` | components/number-guessing.tsx:100 | any run of white space put in front of any text does not change the parse result |
| `JsParseInt.DecimalValue` | components/number-guessing.tsx:100 | the digits of the decimal rendering of n have the value n |
| `JsParseInt.ParseDigits` | components/number-guessing.tsx:100 | white space, an optional sign, a non-empty run of digits and a non-digit tail parse to the signed value of the digits |
| `JsParseInt.ParseDecimal` | components/number-guessing.tsx:100 | round trip: the decimal text of any integer, with any white space before and any non-digit tail after, parses back to that integer |
| `JsParseInt.ParseNoDigits` | components/number-guessing.tsx:100 | when no digit follows the white space and the sign, the result is NaN |
| `GuessingSession.StartGame` | components/number-guessing.tsx:31-38 | Start sets started, clears gameOver, paused, attempts, hint and error, and keeps userGuess and the target |
| `GuessingSession.PauseGame` | components/number-guessing.tsx:41-43 | Pause sets paused and changes nothing else |
| `GuessingSession.ResumeGame` | components/number-guessing.tsx:46-48 | Resume clears paused and changes nothing else |
| `GuessingSession.HintFor` | components/number-guessing.tsx:74 | the hint is "Higher!" exactly when the guess is below the target, and "Lower!" otherwise |
| `GuessingSession.SubmitGuess` | components/number-guessing.tsx:59-77 | an out-of-range number sets the range message and keeps attempts, hint and gameOver; an empty guess only clears the error; a hit ends the game, clears hint and error, and keeps attempts; a miss gives the direction hint and adds one attempt; the guess, target, started and paused are never touched |
| `GuessingSession.TryAgainGame` | components/number-guessing.tsx:80-87 | Try Again clears started, gameOver, the guess, attempts, hint and error, and keeps paused and the target |
| `GuessingSession.GuessOfText` | components/number-guessing.tsx:94-106 | empty text gives an empty guess; other text gives a number exactly when parseInt gives an integer, and then that integer |
| `GuessingSession.UserGuessChange` | components/number-guessing.tsx:90-107 | the input handler changes only the pending guess, which becomes GuessOfText of the typed text (so empty text gives an empty guess) |
| `GuessingSession.Effect` | components/number-guessing.tsx:22-28 | the effect records the current (started, paused); it replaces the target with the draw exactly when that pair changed and the game is started and unpaused; nothing else changes |
| `GuessingSession.Step` | components/number-guessing.tsx:22-107 | one event is its handler and then the effect: afterwards the effect has seen the current (started, paused), the effect changes nothing of the handler's result but the target and that remembered pair, and a target that changed is the draw |
| `GuessingSession.InitialConsistent` | components/number-guessing.tsx:12-28 | the initial state satisfies the invariant: the effect has seen the current pair and no started, unpaused game lacks a target |
| `GuessingSession.StepKeepsConsistent` | components/number-guessing.tsx:22-28 | every event followed by the effect keeps that invariant |
| `GuessingSession.RunKeepsConsistent` | components/number-guessing.tsx:22-28 | any sequence of events keeps that invariant |
| `GuessingSession.ReachableTargetInRange` | components/number-guessing.tsx:22-28 | in every reachable state, a started and unpaused game has its target in 1..10 |
| `GuessingSession.StartDrawsTarget` | components/number-guessing.tsx:22-38 | Start then the effect: a fresh game with the drawn target in 1..10 and the pending guess untouched |
| `GuessingSession.PauseKeepsTarget` | components/number-guessing.tsx:22-43 | Pause then the effect changes only paused (and the effect's remembered pair), so no new target is drawn |
| `GuessingSession.ResumeRedrawsTarget` | components/number-guessing.tsx:22-48 | Resume then the effect clears paused and replaces the target with the fresh draw |
| `GuessingSession.GuessKeepsTarget` | components/number-guessing.tsx:59-77 | a Guess does not make the effect fire, so the step is the handler alone |
| `GuessingSession.InputKeepsTarget` | components/number-guessing.tsx:90-107 | typing does not make the effect fire, so the step is the handler alone |
| `GuessingSession.TryAgainKeepsTarget` | components/number-guessing.tsx:80-87 | Try Again then the effect returns to the start screen with paused and the target unchanged |
| `GuessingSession.GuessWinsWhilePaused` | components/number-guessing.tsx:59-77 | a winning guess ends the game even while paused, and paused stays set |
| `GuessingSession.AttemptsCountMisses` | components/number-guessing.tsx:59-87 | after any event, attempts is 0 after Start or Try Again, one more after an in-range miss, and unchanged otherwise |
| `GuessingSession.GameEndsOnlyByWin` | components/number-guessing.tsx:59-77 | a running game becomes over exactly when a Guess hits the target |
| `GuessingSession.OfferedRunKeepsScreen` | components/number-guessing.tsx:124-209 | using only the buttons and input the page shows, a finished game is always a started one (so the Start button and the Game Over panel are never shown together), and while the game is not started, attempts is 0 and the hint and the error are empty |
| `GuessingSession.GuessOfDecimalText` | components/number-guessing.tsx:90-107 | typed decimal text of an integer, with leading white space and a non-digit tail, becomes that integer as the pending guess |
| `GuessingSession.GuessOfTextWithoutDigits` | components/number-guessing.tsx:90-107 | typed text with no digits after the white space and the sign becomes an empty pending guess |
| `GuessingSession.GuessOfDigits` | components/number-guessing.tsx:99-103 | a plain run of digits becomes its value as the pending guess |
| `GuessingSession.GuessOfDigit` | components/number-guessing.tsx:99-103 | a single digit becomes its value as the pending guess |
| `NumberGuessing.Component.constructor` | components/number-guessing.tsx:12-28 | mounting gives the initial state values and satisfies the invariant |
| `NumberGuessing.Component.HandleStartGame` | components/number-guessing.tsx:31-38 | the new state is StartGame of the old one |
| `NumberGuessing.Component.HandlePauseGame` | components/number-guessing.tsx:41-43 | the new state is PauseGame of the old one |
| `NumberGuessing.Component.HandleResumeGame` | components/number-guessing.tsx:46-48 | the new state is ResumeGame of the old one |
| `NumberGuessing.Component.HandleGuess` | components/number-guessing.tsx:59-77 | the new state is SubmitGuess of the old one; confetti fires exactly on a hit |
| `NumberGuessing.Component.HandleTryAgain` | components/number-guessing.tsx:80-87 | the new state is TryAgainGame of the old one |
| `NumberGuessing.Component.HandleUserGuessChange` | components/number-guessing.tsx:90-107 | the new state is UserGuessChange of the old one and the typed text |
| `NumberGuessing.Component.RunEffect` | components/number-guessing.tsx:22-28 | the new state is Effect of the old one and the draw |
| `NumberGuessing.Component.Dispatch` | components/number-guessing.tsx:22-107 | one event runs its handler and then the effect, keeps the invariant, and reports whether confetti fired |
| `NumberGuessing.PlayDigit` | components/number-guessing.tsx:59-107 | typing one digit and pressing Guess in a consistent state is SubmitGuess with that digit as the pending guess, and keeps the invariant |
| `NumberGuessing.PlaySampleGame` | components/number-guessing.tsx:59-77 | with target 7, the guesses 3, 9 and 7 give "Higher!", "Lower!" and then a win, with 2 attempts and confetti |
| `NumberGuessing.PlayOutOfRangeGuess` | components/number-guessing.tsx:61-64 | a guess of 15 shows the range message and counts no attempt |

## Left out

- Rendering and styling (`number-guessing.tsx:111-212`) are not modelled. The
  only use made of them is `Offered`, which says which events the page offers
  in each state.
- The `canvas-confetti` call (`number-guessing.tsx:50-56`) is a visual effect.
  `HandleGuess` and `Dispatch` only return whether it fired.
- `Math.random` and `Math.floor` (`number-guessing.tsx:24`) are replaced by the
  draw `r`, an integer in 1..10 passed in by the caller. Uniformity of the draw
  is not modelled.
- `console.log` (`number-guessing.tsx:25`) is output only and is left out.
- React's scheduling is not modelled. Each event is its handler, one render,
  then the effect. Development-mode double runs of the effect are not modelled.
- The `Button` and `Input` library components are left out. So is the
  browser's clean-up of a `type="number"` field. The input handler is
  modelled on any text it may receive.
- JavaScript numbers are modelled as exact integers. So `parseInt` of "-0"
  gives 0 rather than -0, and very long digit runs are neither rounded nor
  turned into Infinity. None of these changes the 1..10 check or equality with
  a target of at most 10.
- The handlers have no preconditions, because the source guards none of them.
  The page's visibility rules only limit which events are reachable, and they
  appear only in `Offered`.
