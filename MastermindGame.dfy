/**
 * Mastermind: a secret of four distinct colour letters, guesses scored by exact matches
 * (same position) and partial matches (ordered pairs of different positions).
 */
module Mastermind {
  import opened Records
  import opened Outcomes

  const CodeLength: int := 4

  /** The colours a secret is drawn from: red, green, blue, yellow, orange, purple. */
  const LetterList: seq<char> := ['R', 'G', 'B', 'Y', 'O', 'P']

  predicate Distinct(s: string)
  {
    forall i, j :: 0 <= i < j < |s| ==> s[i] != s[j]
  }

  /** What `getSecretSB` produces: four distinct colour letters. */
  predicate IsSecret(s: string)
  {
    |s| == CodeLength && Distinct(s) && forall i :: 0 <= i < |s| ==> s[i] in LetterList
  }

  /** The number of positions i < n where secret and guess agree. */
  function ExactsUpTo(secret: string, guess: string, n: nat): (r: nat)
    requires n <= |secret| && n <= |guess|
    ensures r <= n
  {
    if n == 0 then 0
    else ExactsUpTo(secret, guess, n - 1) + (if secret[n - 1] == guess[n - 1] then 1 else 0)
  }

  function Exacts(secret: string, guess: string): (r: nat)
    requires CodeLength <= |secret| && CodeLength <= |guess|
    ensures r <= CodeLength
  {
    ExactsUpTo(secret, guess, CodeLength)
  }

  /** The number of guess positions j < n, other than i, that hold secret[i]. */
  function RowPartials(secret: string, guess: string, i: nat, n: nat): (r: nat)
    requires i < |secret| && n <= |guess|
    ensures r <= n && (i < n ==> r < n)
    ensures r == 0 <==> forall j :: 0 <= j < n && j != i ==> secret[i] != guess[j]
  {
    if n == 0 then 0
    else RowPartials(secret, guess, i, n - 1) + (if i != n - 1 && secret[i] == guess[n - 1] then 1 else 0)
  }

  /** The partial matches contributed by the secret positions i < m. */
  function PartialsUpTo(secret: string, guess: string, m: nat): (r: nat)
    requires m <= |secret| && CodeLength <= |guess|
    ensures m <= CodeLength ==> r <= m * (CodeLength - 1)
    ensures r == 0 <==> forall i, j :: 0 <= i < m && 0 <= j < CodeLength && i != j ==> secret[i] != guess[j]
  {
    if m == 0 then 0
    else
      assert (m - 1) * (CodeLength - 1) + (CodeLength - 1) == m * (CodeLength - 1);
      PartialsUpTo(secret, guess, m - 1) + RowPartials(secret, guess, m - 1, CodeLength)
  }

  /**
   * The ordered pairs of different positions (i, j) with secret[i] == guess[j]: none exactly
   * when no secret colour sits elsewhere in the guess, and at most one per pair.
   */
  function Partials(secret: string, guess: string): (r: nat)
    requires CodeLength <= |secret| && CodeLength <= |guess|
    ensures r <= CodeLength * (CodeLength - 1)
    ensures r == 0 <==> forall i, j :: 0 <= i < CodeLength && 0 <= j < CodeLength && i != j ==> secret[i] != guess[j]
  {
    PartialsUpTo(secret, guess, CodeLength)
  }

  // Counting aids for the bound on exact plus partial matches.

  /** Guess positions j < n holding secret[i], the diagonal included. */
  function Row(secret: string, guess: string, i: nat, n: nat): nat
    requires i < |secret| && n <= |guess|
  {
    if n == 0 then 0 else Row(secret, guess, i, n - 1) + (if secret[i] == guess[n - 1] then 1 else 0)
  }

  /** Secret positions i < m holding c. */
  function Col(secret: string, c: char, m: nat): nat
    requires m <= |secret|
  {
    if m == 0 then 0 else Col(secret, c, m - 1) + (if secret[m - 1] == c then 1 else 0)
  }

  /** All matching pairs (i, j) with i < m and j < n, counted row by row. */
  function Total(secret: string, guess: string, m: nat, n: nat): nat
    requires m <= |secret| && n <= |guess|
  {
    if m == 0 then 0 else Total(secret, guess, m - 1, n) + Row(secret, guess, m - 1, n)
  }

  /** The same pairs counted column by column. */
  function ColTotal(secret: string, guess: string, m: nat, n: nat): nat
    requires m <= |secret| && n <= |guess|
  {
    if n == 0 then 0 else ColTotal(secret, guess, m, n - 1) + Col(secret, guess[n - 1], m)
  }

  lemma {:induction false} RowSplit(secret: string, guess: string, i: nat, n: nat)
    requires i < |secret| && n <= |guess|
    ensures RowPartials(secret, guess, i, n) + (if i < n && secret[i] == guess[i] then 1 else 0)
         == Row(secret, guess, i, n)
  {
    if n > 0 {
      RowSplit(secret, guess, i, n - 1);
    }
  }

  lemma {:induction false} ExactsPlusPartialsIsTotal(secret: string, guess: string, m: nat)
    requires m <= CodeLength <= |secret| && CodeLength <= |guess|
    ensures ExactsUpTo(secret, guess, m) + PartialsUpTo(secret, guess, m) == Total(secret, guess, m, CodeLength)
  {
    if m > 0 {
      ExactsPlusPartialsIsTotal(secret, guess, m - 1);
      RowSplit(secret, guess, m - 1, CodeLength);
    }
  }

  lemma {:induction false} ColTotalEmpty(secret: string, guess: string, n: nat)
    requires n <= |guess|
    ensures ColTotal(secret, guess, 0, n) == 0
  {
    if n > 0 {
      ColTotalEmpty(secret, guess, n - 1);
    }
  }

  lemma {:induction false} ColTotalStep(secret: string, guess: string, m: nat, n: nat)
    requires 0 < m <= |secret| && n <= |guess|
    ensures ColTotal(secret, guess, m, n) == ColTotal(secret, guess, m - 1, n) + Row(secret, guess, m - 1, n)
  {
    if n > 0 {
      ColTotalStep(secret, guess, m, n - 1);
    }
  }

  lemma {:induction false} TotalByColumns(secret: string, guess: string, m: nat, n: nat)
    requires m <= |secret| && n <= |guess|
    ensures Total(secret, guess, m, n) == ColTotal(secret, guess, m, n)
  {
    if m == 0 {
      ColTotalEmpty(secret, guess, n);
    } else {
      TotalByColumns(secret, guess, m - 1, n);
      ColTotalStep(secret, guess, m, n);
    }
  }

  lemma {:induction false} ColAbsent(secret: string, c: char, m: nat)
    requires m <= |secret| && forall i :: 0 <= i < m ==> secret[i] != c
    ensures Col(secret, c, m) == 0
  {
    if m > 0 {
      ColAbsent(secret, c, m - 1);
    }
  }

  /** A symbol occurs at most once in a secret without repeats. */
  lemma {:induction false} ColAtMostOne(secret: string, c: char, m: nat)
    requires m <= |secret| && Distinct(secret)
    ensures Col(secret, c, m) <= 1
  {
    if m > 0 {
      if secret[m - 1] == c {
        ColAbsent(secret, c, m - 1);
      } else {
        ColAtMostOne(secret, c, m - 1);
      }
    }
  }

  lemma {:induction false} ColTotalAtMost(secret: string, guess: string, m: nat, n: nat)
    requires m <= |secret| && n <= |guess| && Distinct(secret)
    ensures ColTotal(secret, guess, m, n) <= n
  {
    if n > 0 {
      ColTotalAtMost(secret, guess, m, n - 1);
      ColAtMostOne(secret, guess[n - 1], m);
    }
  }

  /**
   * Because a secret never repeats a symbol, each guess position matches at most one secret
   * position, so exact and partial matches together never exceed the code length.
   */
  lemma ExactsPlusPartialsAtMost(secret: string, guess: string)
    requires IsSecret(secret) && CodeLength <= |guess|
    ensures Exacts(secret, guess) + Partials(secret, guess) <= CodeLength
  {
    ExactsPlusPartialsIsTotal(secret, guess, CodeLength);
    TotalByColumns(secret, guess, CodeLength, CodeLength);
    ColTotalAtMost(secret, guess, CodeLength, CodeLength);
  }

  lemma {:induction false} ExactsUpToAll(secret: string, guess: string, n: nat)
    requires n <= |secret| && n <= |guess|
    ensures ExactsUpTo(secret, guess, n) == n <==> secret[..n] == guess[..n]
  {
    if n > 0 {
      ExactsUpToAll(secret, guess, n - 1);
      assert secret[..n] == secret[..n - 1] + [secret[n - 1]];
      assert guess[..n] == guess[..n - 1] + [guess[n - 1]];
      if secret[..n] == guess[..n] {
        assert secret[..n][..n - 1] == secret[..n - 1] && guess[..n][..n - 1] == guess[..n - 1];
        assert secret[n - 1] == secret[..n][n - 1];
      }
    }
  }

  /**
   * For a guess of the code's length, the win check (equal strings) means four exact
   * matches, and a winning guess of a secret has no partial matches.
   */
  lemma WinIffAllExact(secret: string, guess: string)
    requires IsSecret(secret) && |guess| == CodeLength
    ensures secret == guess <==> Exacts(secret, guess) == CodeLength
    ensures secret == guess ==> Partials(secret, guess) == 0
  {
    ExactsUpToAll(secret, guess, CodeLength);
    assert secret[..CodeLength] == secret && guess[..CodeLength] == guess;
    ExactsPlusPartialsAtMost(secret, guess);
  }

  /** With fewer than four symbols used, an unused colour remains. */
  lemma UnusedColour(s: string)
    requires |s| < CodeLength
    ensures exists c :: c in LetterList && c !in s
  {
    if 'R' in s && 'G' in s && 'B' in s && 'Y' in s {
      var i0 :| 0 <= i0 < |s| && s[i0] == 'R';
      var i1 :| 0 <= i1 < |s| && s[i1] == 'G';
      var i2 :| 0 <= i2 < |s| && s[i2] == 'B';
      var i3 :| 0 <= i3 < |s| && s[i3] == 'Y';
      assert false;
    }
  }

  /** The worked examples: RGBY against RGYB, OOPP and RGBY. */
  lemma Examples()
    ensures Exacts("RGBY", "RGYB") == 2 && Partials("RGBY", "RGYB") == 2
    ensures Exacts("RGBY", "OOPP") == 0 && Partials("RGBY", "OOPP") == 0
    ensures Exacts("RGBY", "RGBY") == 4 && Partials("RGBY", "RGBY") == 0
    ensures IsSecret("RGBY")
  {
  }

  class MastermindGame {
    var secret: string
    var guessesRemaining: int
    var roundCounter: int
    var guess: string
    var exacts: int
    var partials: int

    /** No secret and no guess before the first round; afterwards a secret of four colours. */
    ghost predicate Valid()
      reads this
    {
      || (secret == [] && guess == [])
      || (IsSecret(secret) && (guess == [] || CodeLength <= |guess|))
    }

    constructor()
      ensures Valid()
      ensures secret == [] && guess == [] && exacts == 0 && partials == 0
      ensures guessesRemaining == InitialGuesses && roundCounter == 0
    {
      secret, guess := [], [];
      exacts, partials := 0, 0;
      guessesRemaining, roundCounter := InitialGuesses, 0;
    }

    /**
     * Draws four distinct colours. A draw of a colour already used appends nothing, so the
     * draws that count are modelled as a choice among the colours not yet used.
     */
    method NewSecret() returns (s: string)
      ensures IsSecret(s)
    {
      s := [];
      while |s| < CodeLength
        invariant |s| <= CodeLength && Distinct(s)
        invariant forall i :: 0 <= i < |s| ==> s[i] in LetterList
        decreases CodeLength - |s|
      {
        UnusedColour(s);
        var c :| c in LetterList && c !in s;
        s := s + [c];
      }
    }

    /** Stores the guess the player typed (upper-cased by the console code). */
    method GetGuess(typed: string)
      requires IsSecret(secret) && CodeLength <= |typed|
      modifies this`guess
      ensures guess == typed
    {
      guess := typed;
    }

    method CheckExacts() returns (n: int)
      requires CodeLength <= |secret| && CodeLength <= |guess|
      ensures n == Exacts(secret, guess)
    {
      n := 0;
      for i := 0 to CodeLength
        invariant n == ExactsUpTo(secret, guess, i)
      {
        if secret[i] == guess[i] {
          n := n + 1;
        }
      }
    }

    method CheckPartials() returns (n: int)
      requires CodeLength <= |secret| && CodeLength <= |guess|
      ensures n == Partials(secret, guess)
    {
      n := 0;
      for i := 0 to CodeLength
        invariant n == PartialsUpTo(secret, guess, i)
      {
        for j := 0 to CodeLength
          invariant n == PartialsUpTo(secret, guess, i) + RowPartials(secret, guess, i, j)
        {
          if i != j {
            if secret[i] == guess[j] {
              n := n + 1;
            }
          }
        }
      }
    }

    /** Scores the stored guess and charges one guess, whatever the outcome. */
    method ProcessGuess()
      requires IsSecret(secret) && CodeLength <= |guess|
      modifies this`exacts, this`partials, this`guessesRemaining
      ensures exacts == Exacts(secret, guess) && partials == Partials(secret, guess)
      ensures exacts + partials <= CodeLength
      ensures guessesRemaining == old(guessesRemaining) - 1
    {
      exacts := CheckExacts();
      partials := CheckPartials();
      ExactsPlusPartialsAtMost(secret, guess);
      guessesRemaining := guessesRemaining - 1;
    }

    /**
     * Won when the stored guess is exactly the secret: for a secret and a guess of four
     * letters, when all four positions match.
     */
    predicate ProcessWin()
      reads this
      ensures ProcessWin() ==> |guess| == |secret|
      ensures IsSecret(secret) && |guess| == CodeLength ==> (ProcessWin() <==> Exacts(secret, guess) == CodeLength)
    {
      if IsSecret(secret) && |guess| == CodeLength then WinIffAllExact(secret, guess); secret == guess
      else secret == guess
    }

    /**
     * `loadNewGame` as written: a fresh secret and a full budget; the round counter and the
     * previous round's last guess are kept.
     */
    method LoadNewGame()
      requires Valid()
      modifies this`secret, this`guessesRemaining
      ensures Valid() && IsSecret(secret) && guessesRemaining == InitialGuesses
    {
      secret := NewSecret();
      guessesRemaining := InitialGuesses;
    }

    /** `loadNewGame` with the previous guess cleared, so no round is won before a guess. */
    method LoadNewGameClearingGuess()
      requires Valid()
      modifies this`secret, this`guessesRemaining, this`guess
      ensures Valid() && IsSecret(secret) && guessesRemaining == InitialGuesses && guess == []
      ensures !ProcessWin()
    {
      secret := NewSecret();
      guessesRemaining := InitialGuesses;
      guess := [];
    }

    /**
     * `playNext` as written: a yes starts a round through `loadNewGame`, so the previous
     * round's last guess is still stored. `None` is input that ran out.
     */
    method PlayNext(reply: Option<bool>) returns (r: Option<bool>)
      requires Valid()
      modifies this`secret, this`guessesRemaining
      ensures Valid() && r == reply
      ensures reply != Some(true) ==> unchanged(this)
      ensures reply == Some(true) ==> IsSecret(secret) && guessesRemaining == InitialGuesses
    {
      match reply
      case None =>
        r := None;
      case Some(yes) =>
        if yes {
          LoadNewGame();
        }
        r := Some(yes);
    }

    /** `playNext` with the corrected reset: a round started by a yes is not already won. */
    method PlayNextClearingGuess(reply: Option<bool>) returns (r: Option<bool>)
      requires Valid()
      modifies this`secret, this`guessesRemaining, this`guess
      ensures Valid() && r == reply
      ensures reply != Some(true) ==> unchanged(this)
      ensures reply == Some(true) ==> !ProcessWin()
      ensures reply == Some(true) ==> IsSecret(secret) && guessesRemaining == InitialGuesses && guess == []
    {
      match reply
      case None =>
        r := None;
      case Some(yes) =>
        if yes {
          LoadNewGameClearingGuess();
        }
        r := Some(yes);
    }
  }
}
