/**
 * Wheel of Fortune: a phrase drawn from a pool, shown with its letters masked by `*`;
 * letter guesses reveal every occurrence of the letter in either case.
 */
module WheelOfFortune {
  import opened Records
  import opened Outcomes

  /** ASCII version of `Character.isLetter`. */
  predicate IsLetter(c: char)
  {
    'a' <= c <= 'z' || 'A' <= c <= 'Z'
  }

  /** ASCII version of `toUpperCase`: lower-case letters move up, everything else stays. */
  function Upper(c: char): char
  {
    if 'a' <= c <= 'z' then (c as int - 32) as char else c
  }

  /** ASCII version of `toLowerCase`. */
  function Lower(c: char): char
  {
    if 'A' <= c <= 'Z' then (c as int + 32) as char else c
  }

  /** The glyph that stands for a letter not yet guessed. */
  const Hidden: char := '*'

  /** `phrase.contains` of the guess in lower case or in upper case. */
  predicate Matches(phrase: string, g: char)
  {
    Lower(g) in phrase || Upper(g) in phrase
  }

  /**
   * The phrase as the player sees it: a letter not among the guessed characters is hidden,
   * every other character is shown as it is.
   */
  function Mask(phrase: string, guessed: string): (m: string)
    ensures |m| == |phrase|
    ensures forall i :: 0 <= i < |phrase| && IsLetter(phrase[i]) && phrase[i] !in guessed ==> m[i] == Hidden
    ensures forall i :: 0 <= i < |phrase| && !(IsLetter(phrase[i]) && phrase[i] !in guessed) ==> m[i] == phrase[i]
  {
    if phrase == [] then []
    else
      var c := phrase[|phrase| - 1];
      Mask(phrase[..|phrase| - 1], guessed) + [if IsLetter(c) && c !in guessed then Hidden else c]
  }

  lemma MaskStep(phrase: string, guessed: string, i: nat)
    requires i < |phrase|
    ensures Mask(phrase[..i + 1], guessed)
         == Mask(phrase[..i], guessed) + [if IsLetter(phrase[i]) && phrase[i] !in guessed then Hidden else phrase[i]]
  {
    assert phrase[..i + 1][..i] == phrase[..i];
  }

  /** A character is its own lower-case or its own upper-case form. */
  lemma CaseForms(c: char)
    ensures c == Lower(c) || c == Upper(c)
  {
  }

  /** The mask depends only on which characters were guessed, so repeating a guess changes nothing. */
  lemma MaskByGuessedSet(phrase: string, a: string, b: string)
    requires forall c :: c in a <==> c in b
    ensures Mask(phrase, a) == Mask(phrase, b)
  {
  }

  /** Guessing characters the phrase does not contain leaves the mask as it was. */
  lemma {:induction false} MaskIgnoresAbsent(phrase: string, guessed: string, extra: string)
    requires forall i, j :: 0 <= i < |phrase| && 0 <= j < |extra| ==> phrase[i] != extra[j]
    ensures Mask(phrase, guessed + extra) == Mask(phrase, guessed)
  {
    if phrase != [] {
      var n := |phrase| - 1;
      MaskIgnoresAbsent(phrase[..n], guessed, extra);
      assert phrase[n] in guessed + extra <==> phrase[n] in guessed;
    }
  }

  /**
   * The mask shows no `*` exactly when every letter of the phrase was guessed and the phrase
   * itself contains no `*`; a phrase with a literal `*` can never be won.
   */
  lemma MaskRevealedIff(phrase: string, guessed: string)
    ensures Hidden !in Mask(phrase, guessed)
        <==> Hidden !in phrase && forall i :: 0 <= i < |phrase| && IsLetter(phrase[i]) ==> phrase[i] in guessed
  {
    var m := Mask(phrase, guessed);
    if Hidden in m {
      var i :| 0 <= i < |m| && m[i] == Hidden;
    }
    if Hidden in phrase {
      var i :| 0 <= i < |phrase| && phrase[i] == Hidden;
      assert m[i] == Hidden;
    }
  }

  /** The worked example: "hi there" before and after guessing h, and after a wrong z. */
  lemma HiThere()
    ensures Mask("hi there", "") == "** *****"
    ensures Matches("hi there", 'h') && Mask("hi there", "hH") == "h* *h***"
    ensures !Matches("hi there", 'z') && Mask("hi there", "hHzZ") == Mask("hi there", "hH")
  {
    MaskIgnoresAbsent("hi there", "hH", "zZ");
  }

  class WheelOfFortuneGame {
    var secret: string
    var guessesRemaining: int
    var roundCounter: int
    var phrase: string
    var previousGuesses: string
    var phraseList: seq<string>
    var guess: char

    /** The shown mask is always the phrase masked by the characters guessed so far. */
    ghost predicate Valid()
      reads this
    {
      secret == Mask(phrase, previousGuesses)
    }

    /** The pool is what the phrase file held; no phrase is drawn yet. */
    constructor(phrases: seq<string>)
      ensures Valid() && phraseList == phrases && phrase == [] && secret == [] && previousGuesses == []
      ensures guessesRemaining == InitialGuesses && roundCounter == 0
    {
      phraseList := phrases;
      phrase, secret, previousGuesses := [], [], [];
      guessesRemaining, roundCounter := InitialGuesses, 0;
      guess := 0 as char;
    }

    /** Draws a phrase at a random index and removes it from the pool. */
    method RandomPhrase() returns (p: string, ghost x: nat)
      requires |phraseList| > 0
      modifies this`phraseList
      ensures x < |old(phraseList)| && p == old(phraseList)[x]
      ensures phraseList == old(phraseList)[..x] + old(phraseList)[x + 1..]
      ensures |phraseList| == |old(phraseList)| - 1
      ensures multiset(phraseList) + multiset{p} == multiset(old(phraseList))
    {
      var i: nat;
      if |phraseList| == 1 {
        i := 0;
      } else {
        i :| i < |phraseList|;
      }
      p := phraseList[i];
      assert phraseList == phraseList[..i] + [p] + phraseList[i + 1..];
      phraseList := phraseList[..i] + phraseList[i + 1..];
      x := i;
    }

    /** The mask before any guess: every letter hidden, everything else shown. */
    method GetHiddenPhrase(phrase: string) returns (initialCode: string)
      ensures |initialCode| == |phrase|
      ensures forall i :: 0 <= i < |phrase| ==> initialCode[i] == if IsLetter(phrase[i]) then Hidden else phrase[i]
      ensures initialCode == Mask(phrase, [])
    {
      initialCode := [];
      for i := 0 to |phrase|
        invariant initialCode == Mask(phrase[..i], [])
      {
        MaskStep(phrase, [], i);
        if IsLetter(phrase[i]) {
          initialCode := initialCode + [Hidden];
        } else {
          initialCode := initialCode + [phrase[i]];
        }
      }
      assert phrase[..|phrase|] == phrase;
    }

    /** Stores the letter the player typed (a single character, lower-cased by the console code). */
    method GetGuess(c: char)
      modifies this`guess
      ensures guess == c
    {
      guess := c;
    }

    /** Rebuilds the mask from the phrase and the guessed characters. */
    method UpdateHiddenPhrase()
      modifies this`secret
      ensures Valid()
    {
      secret := [];
      for i := 0 to |phrase|
        invariant secret == Mask(phrase[..i], previousGuesses)
      {
        MaskStep(phrase, previousGuesses, i);
        var currentChar := phrase[i];
        if IsLetter(currentChar) && currentChar !in previousGuesses {
          secret := secret + [Hidden];
        } else {
          secret := secret + [phrase[i]];
        }
      }
      assert phrase[..|phrase|] == phrase;
    }

    /** Records the guess in both cases and rebuilds the mask. */
    method ProcessCorrect()
      modifies this`previousGuesses, this`secret
      ensures previousGuesses == old(previousGuesses) + [guess, Upper(guess)]
      ensures Valid()
    {
      previousGuesses := previousGuesses + [guess];
      previousGuesses := previousGuesses + [Upper(guess)];
      UpdateHiddenPhrase();
    }

    /** Records the guess in both cases and charges one guess; the mask is left alone. */
    method ProcessIncorrect()
      modifies this`previousGuesses, this`guessesRemaining
      ensures previousGuesses == old(previousGuesses) + [guess, Upper(guess)]
      ensures guessesRemaining == old(guessesRemaining) - 1
    {
      previousGuesses := previousGuesses + [guess];
      previousGuesses := previousGuesses + [Upper(guess)];
      guessesRemaining := guessesRemaining - 1;
    }

    /**
     * A guess found in the phrase (in either case) costs nothing and updates the mask; any
     * other guess, a repeated one included, costs one guess and leaves the mask as it was.
     */
    method ProcessGuess()
      requires Valid()
      modifies this`previousGuesses, this`secret, this`guessesRemaining
      ensures Valid()
      ensures previousGuesses == old(previousGuesses) + [guess, Upper(guess)]
      ensures Matches(phrase, guess) ==> guessesRemaining == old(guessesRemaining)
      ensures !Matches(phrase, guess) ==> guessesRemaining == old(guessesRemaining) - 1 && secret == old(secret)
    {
      if Lower(guess) in phrase || Upper(guess) in phrase {
        ProcessCorrect();
      } else {
        CaseForms(guess);
        MaskIgnoresAbsent(phrase, previousGuesses, [guess, Upper(guess)]);
        ProcessIncorrect();
      }
    }

    /** Starts a round: clears the guesses, refills the budget, draws a phrase and masks it. */
    method LoadNewGame()
      requires |phraseList| > 0
      modifies this`previousGuesses, this`roundCounter, this`guessesRemaining, this`phrase, this`secret, this`phraseList
      ensures Valid() && secret == Mask(phrase, [])
      ensures previousGuesses == [] && roundCounter == 0 && guessesRemaining == InitialGuesses
      ensures phrase in old(phraseList) && |phraseList| == |old(phraseList)| - 1
      ensures multiset(phraseList) + multiset{phrase} == multiset(old(phraseList))
    {
      previousGuesses := [];
      roundCounter := 0;
      guessesRemaining := InitialGuesses;
      ghost var x;
      phrase, x := RandomPhrase();
      secret := GetHiddenPhrase(phrase);
    }

    /** Won when the mask shows no `*`: every letter was guessed and the phrase has no `*`. */
    predicate ProcessWin()
      reads this
      ensures Valid() ==> (ProcessWin() <==>
        Hidden !in phrase && forall i :: 0 <= i < |phrase| && IsLetter(phrase[i]) ==> phrase[i] in previousGuesses)
    {
      MaskRevealedIff(phrase, previousGuesses);
      Hidden !in secret
    }

    /**
     * With the pool empty there is no next round and the player is not asked; otherwise a
     * yes starts a round. `None` is input that ran out.
     */
    method PlayNext(reply: Option<bool>) returns (r: Option<bool>)
      requires Valid()
      modifies this`previousGuesses, this`roundCounter, this`guessesRemaining, this`phrase, this`secret, this`phraseList
      ensures Valid()
      ensures old(phraseList) == [] ==> r == Some(false) && unchanged(this)
      ensures old(phraseList) != [] && reply.None? ==> r.None? && unchanged(this)
      ensures old(phraseList) != [] && reply == Some(false) ==> r == Some(false) && unchanged(this)
      ensures old(phraseList) != [] && reply == Some(true) ==> r == Some(true)
      ensures r == Some(true) ==> previousGuesses == [] && roundCounter == 0 && guessesRemaining == InitialGuesses
      ensures r == Some(true) ==> phrase in old(phraseList) && |phraseList| == |old(phraseList)| - 1
      ensures r == Some(true) ==> multiset(phraseList) + multiset{phrase} == multiset(old(phraseList))
    {
      if phraseList == [] {
        return Some(false);
      }
      match reply
      case None =>
        r := None;
      case Some(yes) =>
        if yes {
          LoadNewGame();
        }
        r := Some(yes);
    }
  }
}
