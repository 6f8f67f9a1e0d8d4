# Wheel of Fortune and Mastermind, modelled in Dafny

This project models a small Java console program with two guessing games that share a
round template. Each game round produces a game record, and the records go into a session
ledger.

- **Records** (`GameRecord.dfy`): a game record is a score plus a player id. The score is
  the number of guesses left when the round ended. Records are ordered by score only.
  Equality looks at both fields.
- **Ledger** (`AllGamesRecord.dfy`): the session's ledger of records. New records go at
  the end. It answers four queries: the integer average, one player's integer average, a
  top-n list, and one player's top-n list. The averages use Java's division, which
  truncates toward zero. An empty ledger makes the average divide by zero. The top-n lists
  sort a copy of the records by non-increasing score, keeping ties in insertion order, then
  take the first n. A negative n fails the way `subList` does.
- **Mastermind** (`MastermindGame.dfy`): the secret is four distinct colours from R, G, B,
  Y, O, P. Each guess is scored by exact matches (same position) and partial matches (a
  secret colour found at a different position of the guess). Every guess costs one.
- **WheelOfFortune** (`WheelOfFortuneGame.dfy`):
  - A phrase is drawn at random and removed from the pool.
  - The phrase is shown with its letters masked by `*`.
  - A guessed character found in the phrase, in either case, costs nothing. If it is a
    letter, it is revealed. Punctuation counts too: `'` in "don't" is a free guess.
  - Any other guess costs one.
  - The round is won when the mask shows no `*`.
  - With the pool empty, no further round is offered.
- **Guessing** (`GuessingGame.dfy`):
  - `play` is the round loop. It checks for a win before every guess, then reads a guess,
    processes it and counts the round. It stops when the round is won or no guesses are
    left, and the record's score is the guesses left.
  - `playAll` plays rounds while the game's `playNext` says yes, and adds each round's
    record to a new ledger.
  - Both games plug into this template through the variants of the `Game` datatype.

Console input is passed in as a sequence of values:

- the player's yes/no answers;
- the guesses, in the form the console code hands them over: an upper-cased string for
  Mastermind, one character for Wheel of Fortune. The Wheel of Fortune console lower-cases
  the typed token first. The model accepts any character, so its upper-case guesses are
  inputs the console never produces.

`None` stands for input that ran out. At that point Java's `Scanner` would throw.
Random draws are a nondeterministic choice among the values `Random` could return. The
phrase file's lines are the pool passed to the Wheel of Fortune constructor.

Points where the code behaves in a way a reader might not expect, which the model follows:

- `highGameList` and `highGameList(id)` with a negative n pass `subList` a negative end,
  so `subList` throws `IllegalArgumentException` (src/AllGamesRecord.java:71 and 90). They
  do not return an empty list.
- `updateHiddenPhrase` reveals every occurrence of a guessed letter
  (src/WheelOfFortuneGame.java:116-126). Guessing `h` in "hi there" shows `h* *h***`, with
  both h's revealed.
- A repeated wrong letter is charged again, because `processIncorrect` does not look at
  earlier guesses.
- Mastermind's `loadNewGame` does not reset the round counter, and it keeps the previous
  round's last guess. `playNext` and the session loop use this as-written `loadNewGame`.
  The corrected version, which also clears the guess, is a separate member (see Findings).
- Wheel of Fortune's win check only looks for `*`, so a phrase that contains a literal `*`
  can never be won.

## Model

| member | source | states |
|---|---|---|
| Records.CompareTo | src/GameRecord.java:19-26 | the result is 1, -1 or 0 exactly when this score is greater than, less than or equal to the other's |
| Records.Equals | src/GameRecord.java:37-42 | two records are equal exactly when both score and player id agree |
| Records.CompareAntisymmetric | src/GameRecord.java:19-26 | swapping the two records negates the comparison |
| Records.CompareTransitive | src/GameRecord.java:19-26 | the order is transitive and total, as `Comparable` requires for sorting |
| Records.CompareIgnoresPlayer | src/GameRecord.java:19-26 | the player id plays no part in the order; equal scores compare 0 |
| Records.EqualsRefinesCompare | src/GameRecord.java:19-42 | equal records compare 0, but records that compare 0 can differ (3/"ann" vs 3/"bob") |
| Ledger.Quot | src/AllGamesRecord.java:40 | Java's `int` division by a positive count: the remainder has the dividend's sign and is smaller than the divisor |
| Ledger.OfPlayer | src/AllGamesRecord.java:52-57 | the player-filtered records are all that player's, and are drawn from the ledger |
| Ledger.OfPlayerContents | src/AllGamesRecord.java:52-57 | the filter keeps every copy of each record with the id and no record with another id: each record occurs in the result as often as in the ledger if it has the id, and not at all otherwise |
| Ledger.SumAppend | src/AllGamesRecord.java:36-39 | the accumulated total of two lists joined is the sum of their totals |
| Ledger.NoPlayerRecords | src/AllGamesRecord.java:49-59 | the filter is empty exactly when no record carries the id |
| Ledger.AverageBounds | src/AllGamesRecord.java:35-41 | the truncated average of a non-empty list lies between its least and greatest score |
| Ledger.SumAtLeast | src/AllGamesRecord.java:36-39 | the sum of scores that are all at least lo is at least count times lo |
| Ledger.SumAtMost | src/AllGamesRecord.java:36-39 | the sum of scores that are all at most hi is at most count times hi |
| Ledger.QuotBetween | src/AllGamesRecord.java:40 | a truncated quotient of a value between n*lo and n*hi lies between lo and hi |
| Ledger.Insert | src/AllGamesRecord.java:70 | inserting one record into the sorted rest makes the list one longer |
| Ledger.InsertContents | src/AllGamesRecord.java:70 | the insertion adds exactly the one record to the list's contents |
| Ledger.InsertNonIncreasing | src/AllGamesRecord.java:70 | inserting into a list ordered by non-increasing score keeps it ordered |
| Ledger.InsertWithScore | src/AllGamesRecord.java:70 | the inserted record comes before every record of the rest with its own score: stability |
| Ledger.ReverseOrderSort | src/AllGamesRecord.java:70 | the sorted copy has as many records as the list |
| Ledger.Top | src/AllGamesRecord.java:71 | the slice holds min(n, size) records |
| Ledger.ReverseOrderSortCorrect | src/AllGamesRecord.java:70 | sorting with the reversed order permutes the list, orders it by non-increasing score, and keeps records of equal score in insertion order |
| Ledger.TopIsTopList | src/AllGamesRecord.java:68-72 | the first min(n, size) records of the sorted copy form a top-n list: the records are drawn from the ledger and no omitted record beats a kept one; for each score, they are the earliest records with that score |
| Ledger.AllGamesRecord.constructor | src/AllGamesRecord.java:16-19 | a new ledger is empty |
| Ledger.AllGamesRecord.AddGameRecord | src/AllGamesRecord.java:25-28 | the record is appended and nothing else changes |
| Ledger.AllGamesRecord.Average | src/AllGamesRecord.java:35-41 | an empty ledger fails with division by zero; otherwise the result is the truncated mean of all scores, between the least and greatest score |
| Ledger.AllGamesRecord.AverageOf | src/AllGamesRecord.java:49-59 | it fails with division by zero exactly when no record has the id; otherwise the result is the truncated mean of that player's scores, within their range |
| Ledger.AllGamesRecord.TotalOf | src/AllGamesRecord.java:50-57 | the loop's sum and count are the total and the number of that player's records |
| Ledger.AllGamesRecord.HighGameList | src/AllGamesRecord.java:68-72 | a negative n, and only a negative n, fails with an illegal argument; otherwise the result is a top-n list of the ledger, and the ledger is not changed |
| Ledger.AllGamesRecord.RecordsOf | src/AllGamesRecord.java:83-88 | the loop collects exactly the player's records, in ledger order |
| Ledger.AllGamesRecord.HighGameListOf | src/AllGamesRecord.java:82-91 | the same as the above over the player's own records, and every returned record has the player's id |
| Mastermind.Exacts | src/MastermindGame.java:71-79 | the exact matches of a guess are at most four |
| Mastermind.Partials | src/MastermindGame.java:86-98 | there are no partial matches exactly when no secret colour sits at a different position of the guess; at most one counts per ordered pair of different positions, so there are at most twelve |
| Mastermind.ExactsPlusPartialsAtMost | src/MastermindGame.java:86-98 | because a secret repeats no colour, exact plus partial matches never exceed four |
| Mastermind.WinIffAllExact | src/MastermindGame.java:105-107 | for a four-letter guess, the win check holds exactly when all four positions match, and then there are no partials |
| Mastermind.UnusedColour | src/MastermindGame.java:35-40 | until the secret has four colours, some colour is still unused, so the draw loop can finish |
| Mastermind.Examples | src/MastermindGame.java:71-98 | RGBY scores RGYB as 2 exact and 2 partial, OOPP as 0 and 0, and RGBY as 4 and 0 |
| Mastermind.MastermindGame.constructor | src/MastermindGame.java:21-24 | no secret, no guess, a full budget and round 0 |
| Mastermind.MastermindGame.NewSecret | src/MastermindGame.java:32-42 | the secret is four distinct letters from the colour list |
| Mastermind.MastermindGame.GetGuess | src/MastermindGame.java:47-53 | the stored guess is replaced by the new one |
| Mastermind.MastermindGame.CheckExacts | src/MastermindGame.java:71-79 | the loop counts the positions where secret and guess agree |
| Mastermind.MastermindGame.CheckPartials | src/MastermindGame.java:86-98 | the nested loop counts the pairs of different positions where a secret letter occurs in the guess |
| Mastermind.MastermindGame.ProcessGuess | src/MastermindGame.java:60-64 | it stores the exact and partial counts, whose sum is at most four, and charges one guess |
| Mastermind.MastermindGame.ProcessWin | src/MastermindGame.java:105-107 | won only when the guess has the secret's length; for a secret and a four-letter guess, won exactly when all four positions match exactly |
| Mastermind.MastermindGame.LoadNewGame | src/MastermindGame.java:134-137 | as written: a fresh secret and a full budget; the round counter and the last guess are kept |
| Mastermind.MastermindGame.LoadNewGameClearingGuess | src/MastermindGame.java:134-137 | corrected: in addition, the last guess is cleared, so the new round is not already won |
| Mastermind.MastermindGame.PlayNext | src/MastermindGame.java:145-154 | as written: yes starts a round with a fresh secret and a full budget through `loadNewGame`, keeping the last guess; no, or input that ran out, leaves the game unchanged |
| Mastermind.MastermindGame.PlayNextClearingGuess | src/MastermindGame.java:145-154 | corrected: the same, except that a yes also clears the last guess, so the new round is not already won |
| WheelOfFortune.Mask | src/WheelOfFortuneGame.java:116-126 | the mask has the phrase's length; a letter not yet guessed shows as `*`; every other character shows as itself |
| WheelOfFortune.MaskByGuessedSet | src/WheelOfFortuneGame.java:120 | the mask depends only on the set of guessed characters, so a repeated guess changes nothing |
| WheelOfFortune.MaskIgnoresAbsent | src/WheelOfFortuneGame.java:106-110 | recording characters the phrase does not contain leaves the mask as it was |
| WheelOfFortune.MaskRevealedIff | src/WheelOfFortuneGame.java:196-198 | the mask has no `*` exactly when every letter was guessed and the phrase holds no literal `*` |
| WheelOfFortune.HiThere | src/WheelOfFortuneGame.java:67-77 | "hi there" starts as `** *****`, becomes `h* *h***` after h, and a wrong z changes nothing |
| WheelOfFortune.WheelOfFortuneGame.constructor | src/WheelOfFortuneGame.java:20-23 | the pool is the phrase file's lines, there are no guesses, and the budget is full |
| WheelOfFortune.WheelOfFortuneGame.RandomPhrase | src/WheelOfFortuneGame.java:47-58 | the phrase at one index of the non-empty pool is returned and removed, and the rest keep their order |
| WheelOfFortune.WheelOfFortuneGame.GetHiddenPhrase | src/WheelOfFortuneGame.java:67-77 | each letter becomes `*` and every other character is kept: the mask with nothing guessed |
| WheelOfFortune.WheelOfFortuneGame.GetGuess | src/WheelOfFortuneGame.java:187 | the typed character becomes the current guess |
| WheelOfFortune.WheelOfFortuneGame.UpdateHiddenPhrase | src/WheelOfFortuneGame.java:116-126 | the shown mask is rebuilt as the phrase masked by the guessed characters |
| WheelOfFortune.WheelOfFortuneGame.ProcessCorrect | src/WheelOfFortuneGame.java:96-101 | the guess is recorded as typed and in upper case, and the mask is brought up to date |
| WheelOfFortune.WheelOfFortuneGame.ProcessIncorrect | src/WheelOfFortuneGame.java:106-110 | the guess is recorded in both forms and one guess is charged |
| WheelOfFortune.WheelOfFortuneGame.ProcessGuess | src/WheelOfFortuneGame.java:84-91 | the guess is recorded in both cases; a character found in the phrase, in either case, costs nothing; any other guess costs one and leaves the mask unchanged; the mask stays in step with the guesses |
| WheelOfFortune.WheelOfFortuneGame.LoadNewGame | src/WheelOfFortuneGame.java:133-139 | the guesses are cleared, the round counter reset and the budget refilled; a phrase is taken out of the pool and fully masked |
| WheelOfFortune.WheelOfFortuneGame.ProcessWin | src/WheelOfFortuneGame.java:196-198 | won exactly when the phrase has no literal `*` and every letter in it was guessed |
| WheelOfFortune.WheelOfFortuneGame.PlayNext | src/WheelOfFortuneGame.java:206-219 | an empty pool ends the session without asking; otherwise yes loads a round from the pool, and no or input that ran out changes nothing |
| Guessing.Game.WinCheck | src/GuessingGame.java:65 | the template's win check is the running game's: for Mastermind with a secret and a four-letter guess, all four positions exact; for Wheel of Fortune, no literal `*` and every letter of the phrase guessed |
| Guessing.Game.GetGuess | src/GuessingGame.java:38 | the game's guess becomes the typed input (Wheel of Fortune: its one character); the budget, the round counter, the secret or phrase and the phrase pool are unchanged, and for Wheel of Fortune so are the guessed characters and the mask |
| Guessing.Game.ProcessGuess | src/GuessingGame.java:39 | a guess costs at most one, and in Mastermind exactly one; in Wheel of Fortune the guess is appended to the guessed characters in both cases, and it is free exactly when the phrase contains it |
| Guessing.Game.CountRound | src/GuessingGame.java:40 | the round counter goes up by one and nothing else changes |
| Guessing.Game.PlayNext | src/GuessingGame.java:17 | the player's answer decides, except that an empty phrase pool ends a Wheel of Fortune session; a yes refills the budget, gives Mastermind a valid secret (keeping its last guess, as its as-written `loadNewGame` does), and gives Wheel of Fortune a phrase taken out of the pool with nothing guessed; the pool's contents are the phrases left plus the one taken |
| Guessing.Misses | src/WheelOfFortuneGame.java:84-91 | the Wheel of Fortune guesses that miss the phrase in both cases are at most the guesses made |
| Guessing.Game.ReplayClosedForm | src/GuessingGame.java:29-46 | after a run of turns the round counter has grown by their number; Mastermind's budget drops by one per guess; Wheel of Fortune's budget drops by the guesses that miss, and every guess is recorded in both cases, in order |
| Guessing.Game.ReplayWon | src/GuessingGame.java:65 | after a run of turns the round is won exactly when, in Mastermind, the last guess is the secret, or, in Wheel of Fortune, the phrase masked by all guesses so far shows no `*` |
| Guessing.Game.RoundFacts | src/GuessingGame.java:29-46 | a run of turns each taken while the round went on leaves a budget between 0 and the start, the last guess as the game's guess, and the closed forms above; no earlier guess was a Mastermind win, and no earlier Wheel of Fortune prefix revealed the phrase |
| Guessing.Game.TakeTurn | src/GuessingGame.java:38-40 | one turn moves the game's view (budget, round, win, last guess, guessed characters) by exactly one step of the turn function: Mastermind charges one, Wheel of Fortune charges a miss and records the guess in both cases |
| Guessing.Game.Turns | src/GuessingGame.java:36-42 | the loop takes turns while the round is neither won nor out of guesses, and stops early only when it is won or the budget is used up; the view after it is the turns replayed over the guesses consumed |
| Guessing.Game.Play | src/GuessingGame.java:29-46 | the round plays the guesses up to and including the first win or the last affordable guess, and no further: no Mastermind guess before the last is the secret, and no Wheel of Fortune guess before the last revealed the phrase; the record's score is the guesses left, between 0 and the start: five less the guesses in Mastermind, five less the misses in Wheel of Fortune, whose guessed characters gain every consumed guess in both cases; the round counter grows by one per guess; no record when the guesses ran out first |
| Guessing.Game.RoundOutcome | src/GuessingGame.java:29-46 | a run of guesses from a full budget that went on at every shorter prefix and stopped at its end is the outcome of a round on that secret or phrase: in Mastermind the score is five less the guesses, no guess before the last is the secret, and a round that stopped with guesses left stopped on the secret; in Wheel of Fortune the score is five less the misses, every shorter prefix left the phrase masked with guesses to spare, and a positive score means the phrase was revealed |
| Guessing.Game.MastermindInPlay | src/GuessingGame.java:33-35 | after one or more Mastermind guesses from a full budget, the round goes on exactly when guesses are left and the last guess is not the secret |
| Guessing.Game.WheelInPlay | src/GuessingGame.java:33-35 | after Wheel of Fortune guesses from a full budget with nothing guessed, the round goes on exactly when fewer than five guesses missed and the phrase is still masked |
| Guessing.Game.PlayRound | src/GuessingGame.java:18 | a round started from a full budget yields a record for "user" scoring 0 to 5 that is the outcome, as above, of the round on the game's secret or phrase with the guesses it consumed; the secret or phrase and the pool are unchanged |
| Guessing.AllOutcomesStep | src/GuessingGame.java:18-19 | appending a round's record, key and guesses keeps every record the outcome of its own round on its own key |
| Guessing.SessionStep | src/GuessingGame.java:18-19 | a yes answer and a finished round extend the session by one record, its secret or phrase, and that round's guesses |
| Guessing.DrawnSizes | src/WheelOfFortuneGame.java:47-58 | when the phrases left and those drawn make up the pool, the drawn phrases are a sub-multiset of the pool and the counts add up |
| Guessing.DrawnStep | src/WheelOfFortuneGame.java:47-58 | drawing one more phrase from those left keeps the drawn and the left together equal to the pool |
| Guessing.Game.SessionRound | src/GuessingGame.java:18-19 | the round after a yes, when it finishes, extends the session by its record, its key and its guesses, and in Wheel of Fortune its phrase counts as drawn from the pool |
| Guessing.Game.NextRound | src/GuessingGame.java:17-19 | one pass of the session loop: after a no, the session is over because the player said no or, in Wheel of Fortune, the pool is empty; after a yes and a finished round, the session is extended by that round; the pool bookkeeping is kept |
| Guessing.Game.RunSession | src/GuessingGame.java:17-20 | the session loop on a ledger: the ledger receives exactly the session's records, in order of play, each the outcome of its own round on its own secret or phrase with its own guesses, and those guesses joined are the input used so far; it stops at the first no or the empty pool, and in Wheel of Fortune the phrases played are drawn from the pool without replacement |
| Guessing.JoinedStep | src/GuessingGame.java:18 | appending the next round's guesses to the earlier rounds' extends the consumed prefix of the input |
| Guessing.Game.PlayAll | src/GuessingGame.java:15-22 | a new ledger holding one record per yes answer, each for "user" and scoring 0 to 5; record t is the outcome of round t on its own secret or phrase (a valid Mastermind secret, or a phrase drawn from the pool) with its own guesses, and the rounds' guesses joined, in order, are the first `used` guesses of the input; the session stops at the first no or when the pool runs out; a pool of k phrases allows at most k rounds |
| Guessing.FirstGuessWinScoresFour | src/GuessingGame.java:29-46 | Mastermind won with the first guess scores four and stops there, whatever guesses follow |
| Guessing.TwoLetterTurns | src/WheelOfFortuneGame.java:84-126 | on the phrase "ab", guessing a then b records aA then aAbB, misses nothing, and reveals the phrase only after b |
| Guessing.TwoLetterMasks | src/WheelOfFortuneGame.java:116-126 | "ab" masks as `**` with nothing guessed, `a*` after a, and `ab` after a and b |
| Guessing.TwoLetterStop | src/GuessingGame.java:36-42 | a round on "ab" fed a then b cannot stop after fewer than both guesses, since it is then neither won nor out of guesses; after both it is won with the full budget |
| Guessing.TwoLetterPhraseScoresFive | src/GuessingGame.java:29-46 | a fresh Wheel of Fortune round on "ab", guessed a then b, takes both guesses and scores five |
| Guessing.NoLetterPhraseScoresFive | src/GuessingGame.java:29-46 | a phrase without letters is won before any guess and scores five |
| Guessing.UnloadedRoundScoresFive | src/MastermindGame.java:21-24 | Mastermind played before any `loadNewGame` is won with no guess and scores five, because the empty guess equals the empty secret |
| Guessing.StaleGuessWinsNextRound | src/MastermindGame.java:134-137 | as written, a new round whose secret equals the last guess is won before any guess, with score five |

## Left out

- Console output is not modelled: the `display…` methods, the prompts and `toString`.
  The `main` methods are not modelled either.
- `hashCode` is not modelled.
- `readPhrases` is not modelled because it reads a file. The constructor takes the list of
  lines instead.
- `java.util.Random` is replaced by a nondeterministic choice among the values it could
  return.
- `Character.isLetter`, `toUpperCase` and `toLowerCase` are modelled for ASCII only.
  Unicode letters and case rules are not modelled.
- Ledger.Sum: the sums in `average` and `average(id)` are unbounded integers. Java's 32-bit
  wrap-around on overflow is not modelled.
- Mastermind.MastermindGame.GetGuess: it takes the already upper-cased guess, and the model
  requires at least four characters. In Java, a shorter guess makes `checkExacts` throw
  `StringIndexOutOfBoundsException`; that crash is not modelled.
- WheelOfFortune.WheelOfFortuneGame.GetGuess: it takes the character the player settled on,
  in any case, `'\0'` included. The console's lower-casing of the typed token is not
  modelled, and neither is its re-prompting (src/WheelOfFortuneGame.java:170-187). The
  re-prompt's return value is the model's input:
  - After a token of the wrong length, `charGuess` stays 0 through the recursive call
    (lines 173, 177-180 and 187). So the guess is `'\0'`, which no phrase line contains
    and which is charged as a wrong guess.
  - After a repeated letter, the guess falls back to that letter (lines 182-185). It is
    charged again, unless the phrase contains it.
- Guessing.Game.PlayNext: the yes/no answer is a boolean, standing for "the typed token is
  `y` in either case".
- WheelOfFortune: Java's `null` initial phrase and secret are modelled as empty strings.
  In Java, calling `play` before `loadNewGame` throws `NullPointerException`. The model
  would instead report a won round scoring five. `playAll` never does this, because
  `playNext` loads a round before every `play`.
- Mastermind needs no such caveat. Its constructor sets both buffers to empty strings, so
  `play` before `loadNewGame` finds the empty guess equal to the empty secret. The round is
  won at once and scores five, as Guessing.UnloadedRoundScoresFive states.
- `Collections.sort` is modelled by a stable insertion sort. For a given order, a stable
  sort has exactly one possible result.

## Findings

| source | as written | input that shows it | evidently intended | confidence | as-written member | corrected member |
|---|---|---|---|---|---|---|
| src/MastermindGame.java:134-137 | `loadNewGame` draws a new secret and refills the budget, but keeps `guessSB`, the previous round's last guess | a round whose last guess was RGBY, followed by a yes and a new secret that is again RGBY: `play` sees the win check hold at once, takes no guess, and records a score of 5 | a new round starts with no guess, so it cannot be won before the player guesses; Mastermind.MastermindGame.PlayNextClearingGuess starts rounds through the corrected member | not executed | Guessing.StaleGuessWinsNextRound | Mastermind.MastermindGame.LoadNewGameClearingGuess |
