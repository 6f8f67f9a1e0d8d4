/**
 * The round template shared by both games and the session loop around it. The template
 * only reads the guess budget, asks the game whether it is won, and hands it guesses; the
 * game-specific work happens in the two game classes, reached through the `Game` variants.
 */
module Guessing {
  import opened Records
  import opened Outcomes
  import opened Ledger
  import opened Mastermind
  import opened WheelOfFortune

  /**
   * What the round loop looks at: the budget, the round counter, the win check, the last
   * guess, and the characters guessed so far (Wheel of Fortune's; Mastermind keeps none).
   */
  datatype View = View(budget: int, round: int, won: bool, last: string, guessed: string)

  /** A round still in play: not won, and with guesses left. */
  predicate Continues(v: View)
  {
    v.budget > 0 && !v.won
  }

  /** What Wheel of Fortune records for a guess: its character as typed and in upper case. */
  function Both(s: string): string
  {
    if s == [] then [] else [s[0], Upper(s[0])]
  }

  /** What Wheel of Fortune charges for a guess: nothing when the phrase contains it in either case. */
  function Miss(phrase: string, s: string): nat
  {
    if s != [] && Matches(phrase, s[0]) then 0 else 1
  }

  /** The characters Wheel of Fortune records for the guesses gs, in order. */
  function Recorded(gs: seq<string>): string
  {
    if gs == [] then [] else Recorded(gs[..|gs| - 1]) + Both(gs[|gs| - 1])
  }

  /** How many of the guesses gs Wheel of Fortune charges for. */
  function Misses(phrase: string, gs: seq<string>): (r: nat)
    ensures r <= |gs|
  {
    if gs == [] then 0 else Misses(phrase, gs[..|gs| - 1]) + Miss(phrase, gs[|gs| - 1])
  }

  /** The guesses of consecutive rounds, joined in the order the rounds were played. */
  function Joined(segments: seq<seq<string>>): seq<string>
  {
    if segments == [] then [] else Joined(segments[..|segments| - 1]) + segments[|segments| - 1]
  }

  /** Adding the next round's guesses to the rounds before it extends the consumed prefix. */
  lemma JoinedStep(segments: seq<seq<string>>, gs: seq<string>, used: nat, n: nat)
    requires used + n <= |gs| && Joined(segments) == gs[..used]
    ensures Joined(segments + [gs[used..used + n]]) == gs[..used + n]
  {
    assert (segments + [gs[used..used + n]])[..|segments|] == segments;
    assert gs[..used] + gs[used..used + n] == gs[..used + n];
  }

  /**
   * How a round with the secret or phrase `key` that took the guesses `seg` and scored
   * `score` went, from a full budget and, in Wheel of Fortune, nothing guessed. In
   * Mastermind each guess costs one, no guess before the last was the secret, and a round
   * that stopped with guesses left stopped on the secret. In Wheel of Fortune only misses
   * cost, every shorter prefix left the phrase hidden with guesses to spare, and a round
   * that stopped with guesses left had revealed the phrase.
   */
  ghost predicate Outcome(mastermind: bool, key: string, seg: seq<string>, score: int)
  {
    if mastermind then
      && score == InitialGuesses - |seg|
      && (forall i :: 0 <= i < |seg| - 1 ==> seg[i] != key)
      && (0 < |seg| < InitialGuesses ==> seg[|seg| - 1] == key)
    else
      && score == InitialGuesses - Misses(key, seg)
      && (forall k: nat :: k < |seg| ==> WheelOnAfter(key, seg, k))
      && (0 < score ==> Hidden !in Mask(key, Recorded(seg)))
  }

  /** A Wheel of Fortune round is still on after the first `k` guesses of `seg`: guesses are left and the phrase is masked. */
  ghost predicate WheelOnAfter(key: string, seg: seq<string>, k: nat)
    requires k <= |seg|
  {
    Misses(key, seg[..k]) < InitialGuesses && Hidden in Mask(key, Recorded(seg[..k]))
  }

  /**
   * What the session loop has built so far: one record per yes answer, each the outcome of
   * a round on its own secret or phrase `keys[t]` with its own guesses `segments[t]`, which
   * joined in order are the prefix of the input used so far.
   */
  ghost predicate Session(mastermind: bool, answers: seq<bool>, guesses: seq<string>,
                          rounds: seq<GameRecord>, keys: seq<string>, segments: seq<seq<string>>, used: nat)
  {
    && |rounds| <= |answers| && used <= |guesses|
    && |segments| == |rounds| && |keys| == |rounds| && Joined(segments) == guesses[..used]
    && (forall t :: 0 <= t < |rounds| ==> answers[t])
    && (forall t :: 0 <= t < |rounds| ==> rounds[t].playerId == DefaultPlayer)
    && (forall t :: 0 <= t < |rounds| ==> 0 <= rounds[t].score <= InitialGuesses)
    && AllOutcomes(mastermind, rounds, keys, segments)
  }

  /** Record `t` is the outcome of the round on `keys[t]` with the guesses `segments[t]`; Mastermind secrets are secrets. */
  ghost predicate AllOutcomes(mastermind: bool, rounds: seq<GameRecord>, keys: seq<string>, segments: seq<seq<string>>)
    requires |keys| == |rounds| && |segments| == |rounds|
  {
    && (forall t :: 0 <= t < |rounds| ==> Outcome(mastermind, keys[t], segments[t], rounds[t].score))
    && (mastermind ==> forall t :: 0 <= t < |rounds| ==> IsSecret(keys[t]))
  }

  /** A finished round appended to the rounds before it keeps every record tied to its own round. */
  lemma AllOutcomesStep(mastermind: bool, rounds: seq<GameRecord>, keys: seq<string>, segments: seq<seq<string>>,
                        record: GameRecord, key: string, seg: seq<string>)
    requires |keys| == |rounds| && |segments| == |rounds| && AllOutcomes(mastermind, rounds, keys, segments)
    requires Outcome(mastermind, key, seg, record.score) && (mastermind ==> IsSecret(key))
    ensures AllOutcomes(mastermind, rounds + [record], keys + [key], segments + [seg])
  {
    var rounds', keys', segments' := rounds + [record], keys + [key], segments + [seg];
    forall t | 0 <= t < |rounds'|
      ensures Outcome(mastermind, keys'[t], segments'[t], rounds'[t].score)
    {
      if t < |rounds| {
        assert keys'[t] == keys[t] && segments'[t] == segments[t] && rounds'[t] == rounds[t];
      }
    }
  }

  /** The phrases left in the pool and those drawn for the rounds so far make up the original pool. */
  ghost predicate Drawn(pool: seq<string>, left: seq<string>, keys: seq<string>)
  {
    multiset(left) + multiset(keys) == multiset(pool)
  }

  /** What a drawing leaves: the drawn phrases are some of the pool's, and the sizes add up. */
  lemma DrawnSizes(pool: seq<string>, left: seq<string>, keys: seq<string>)
    requires Drawn(pool, left, keys)
    ensures multiset(keys) <= multiset(pool) && |left| + |keys| == |pool|
  {
    assert |multiset(left) + multiset(keys)| == |multiset(pool)|;
  }

  /** Drawing `key` from what is left keeps the bookkeeping. */
  lemma DrawnStep(pool: seq<string>, before: seq<string>, after: seq<string>, keys: seq<string>, key: string)
    requires Drawn(pool, before, keys) && multiset(after) + multiset{key} == multiset(before)
    ensures Drawn(pool, after, keys + [key])
  {
    assert multiset(keys + [key]) == multiset(keys) + multiset{key};
  }

  /** A yes answer followed by a finished round of `n` guesses extends the session. */
  lemma SessionStep(mastermind: bool, answers: seq<bool>, guesses: seq<string>, rounds: seq<GameRecord>,
                    keys: seq<string>, segments: seq<seq<string>>, used: nat, record: GameRecord, key: string, n: nat)
    requires Session(mastermind, answers, guesses, rounds, keys, segments, used)
    requires |rounds| < |answers| && answers[|rounds|] && used + n <= |guesses|
    requires record.playerId == DefaultPlayer && 0 <= record.score <= InitialGuesses
    requires Outcome(mastermind, key, guesses[used..used + n], record.score)
    requires mastermind ==> IsSecret(key)
    ensures Session(mastermind, answers, guesses, rounds + [record], keys + [key],
                    segments + [guesses[used..used + n]], used + n)
  {
    JoinedStep(segments, guesses, used, n);
    AllOutcomesStep(mastermind, rounds, keys, segments, record, key, guesses[used..used + n]);
  }

  /**
   * The win check from a view's parts, with key the Mastermind secret or the Wheel of
   * Fortune phrase: the last guess is the secret, or the masked phrase shows no `*`.
   */
  function Won(wheel: bool, key: string, guessed: string, last: string): bool
  {
    if wheel then Hidden !in Mask(key, guessed) else last == key
  }

  /** A guessing game: one of the two concrete games. */
  datatype Game = OfMastermind(mm: MastermindGame) | OfWheel(wof: WheelOfFortuneGame)
  {
    function Repr(): set<object>
    {
      match this
      case OfMastermind(m) => {m}
      case OfWheel(w) => {w}
    }

    ghost predicate Valid()
      reads Repr()
    {
      match this
      case OfMastermind(m) => m.Valid()
      case OfWheel(w) => w.Valid()
    }

    function GuessesRemaining(): int
      reads Repr()
    {
      match this
      case OfMastermind(m) => m.guessesRemaining
      case OfWheel(w) => w.guessesRemaining
    }

    function RoundCounter(): int
      reads Repr()
    {
      match this
      case OfMastermind(m) => m.roundCounter
      case OfWheel(w) => w.roundCounter
    }

    predicate ProcessWin()
      reads Repr()
    {
      match this
      case OfMastermind(m) => m.ProcessWin()
      case OfWheel(w) => w.ProcessWin()
    }

    /**
     * The template's win check is the running game's own: a four-colour guess equal to the
     * secret in every position, or a phrase whose letters have all been guessed.
     */
    lemma WinCheck()
      requires Valid()
      ensures OfMastermind? && IsSecret(mm.secret) && |mm.guess| == CodeLength ==>
                (ProcessWin() <==> Exacts(mm.secret, mm.guess) == CodeLength)
      ensures OfWheel? ==> (ProcessWin() <==>
                Hidden !in wof.phrase &&
                forall i :: 0 <= i < |wof.phrase| && IsLetter(wof.phrase[i]) ==> wof.phrase[i] in wof.previousGuesses)
    {
    }

    /** The guess the game holds: Mastermind's stored colours, Wheel of Fortune's current letter. */
    function LastGuess(): string
      reads Repr()
    {
      match this
      case OfMastermind(m) => m.guess
      case OfWheel(w) => [w.guess]
    }

    /** What a round leaves fixed and the win check depends on: the secret or the phrase. */
    function Key(): string
      reads Repr()
    {
      match this
      case OfMastermind(m) => m.secret
      case OfWheel(w) => w.phrase
    }

    /** The characters guessed so far: Wheel of Fortune's record; Mastermind keeps none. */
    function Guessed(): string
      reads Repr()
    {
      match this
      case OfMastermind(_) => []
      case OfWheel(w) => w.previousGuesses
    }

    /** The part of the state the round loop looks at. */
    function Snapshot(): View
      reads Repr()
    {
      View(GuessesRemaining(), RoundCounter(), ProcessWin(), LastGuess(), Guessed())
    }

    /** The view after one turn with the guess s: read it, process it, count the round. */
    function Step(key: string, v: View, s: string): View
    {
      var guessed := if OfWheel? then v.guessed + Both(s) else v.guessed;
      var cost := if OfWheel? then Miss(key, s) else 1;
      View(v.budget - cost, v.round + 1, Won(OfWheel?, key, guessed, s), s, guessed)
    }

    /** The view after the turns gs from v0, when the loop takes all of them. */
    function Replay(key: string, v0: View, gs: seq<string>): View
    {
      if gs == [] then v0 else Step(key, Replay(key, v0, gs[..|gs| - 1]), gs[|gs| - 1])
    }

    /**
     * A replay in closed form: the round counter counts the turns; Mastermind pays one guess
     * per turn; Wheel of Fortune records every guess in both cases and pays for the misses.
     */
    lemma {:induction false} ReplayClosedForm(key: string, v0: View, gs: seq<string>)
      ensures Replay(key, v0, gs).round == v0.round + |gs|
      ensures OfMastermind? ==> Replay(key, v0, gs).budget == v0.budget - |gs|
      ensures OfWheel? ==> Replay(key, v0, gs).budget == v0.budget - Misses(key, gs)
      ensures OfWheel? ==> Replay(key, v0, gs).guessed == v0.guessed + Recorded(gs)
    {
      if gs != [] {
        ReplayClosedForm(key, v0, gs[..|gs| - 1]);
      }
    }

    /**
     * The replayed win check after a turn: Mastermind's last guess is the secret; Wheel of
     * Fortune's phrase, masked by every character recorded so far, shows no `*`.
     */
    lemma ReplayWon(key: string, v0: View, gs: seq<string>)
      requires gs != []
      ensures OfMastermind? ==> (Replay(key, v0, gs).won <==> gs[|gs| - 1] == key)
      ensures OfWheel? ==> (Replay(key, v0, gs).won <==> Hidden !in Mask(key, v0.guessed + Recorded(gs)))
    {
      ReplayClosedForm(key, v0, gs);
    }

    /**
     * What a round that took `used` turns, each from a replayed view still in play, comes
     * to: the closed forms, and for every turn but the last, a round not yet won.
     */
    lemma RoundFacts(key: string, v0: View, gs: seq<string>, used: nat)
      requires used <= |gs|
      requires forall k :: 0 <= k < used ==> Continues(Replay(key, v0, gs[..k]))
      ensures used == 0 ==> Replay(key, v0, gs[..used]) == v0
      ensures used > 0 ==> Continues(v0)
      ensures used > 0 ==> 0 <= Replay(key, v0, gs[..used]).budget <= v0.budget
      ensures used > 0 ==> Replay(key, v0, gs[..used]).last == gs[used - 1]
      ensures Replay(key, v0, gs[..used]).round == v0.round + used
      ensures OfMastermind? ==> Replay(key, v0, gs[..used]).budget == v0.budget - used
      ensures OfMastermind? ==> forall t :: 0 <= t < used - 1 ==> gs[t] != key
      ensures OfWheel? ==> Replay(key, v0, gs[..used]).budget == v0.budget - Misses(key, gs[..used])
      ensures OfWheel? ==> Replay(key, v0, gs[..used]).guessed == v0.guessed + Recorded(gs[..used])
      ensures OfWheel? ==> forall k :: 0 < k < used ==> Hidden in Mask(key, v0.guessed + Recorded(gs[..k]))
    {
      ReplayClosedForm(key, v0, gs[..used]);
      assert gs[..0] == [];
      if used > 0 {
        assert gs[..used][..used - 1] == gs[..used - 1];
        assert Continues(Replay(key, v0, gs[..used - 1]));
      }
      forall k | 0 < k < used ensures OfWheel? ==> Hidden in Mask(key, v0.guessed + Recorded(gs[..k])) {
        assert Continues(Replay(key, v0, gs[..k]));
        ReplayWon(key, v0, gs[..k]);
      }
      forall t | 0 <= t < used - 1 ensures OfMastermind? ==> gs[t] != key {
        assert Continues(Replay(key, v0, gs[..t + 1]));
        ReplayWon(key, v0, gs[..t + 1]);
      }
    }

    /**
     * A round from a full budget (and, in Wheel of Fortune, nothing guessed) that took the
     * turns seg, each while it was in play, and then stopped, went as `Outcome` says.
     */
    lemma RoundOutcome(key: string, v0: View, seg: seq<string>)
      requires v0.budget == InitialGuesses
      requires OfWheel? ==> v0.guessed == [] && v0.won == Won(true, key, v0.guessed, v0.last)
      requires forall k :: 0 <= k < |seg| ==> Continues(Replay(key, v0, seg[..k]))
      requires !Continues(Replay(key, v0, seg))
      ensures Outcome(OfMastermind?, key, seg, Replay(key, v0, seg).budget)
    {
      ReplayClosedForm(key, v0, seg);
      if OfWheel? {
        forall k: nat | k < |seg| ensures WheelOnAfter(key, seg, k) {
          WheelInPlay(key, v0, seg[..k]);
        }
        WheelInPlay(key, v0, seg);
      } else {
        forall i | 0 <= i < |seg| - 1 ensures seg[i] != key {
          MastermindInPlay(key, v0, seg[..i + 1]);
        }
        if seg != [] {
          MastermindInPlay(key, v0, seg);
        }
      }
    }

    /**
     * After the Mastermind turns p from a full budget, the round is in play exactly when
     * guesses are left and the last guess missed the secret.
     */
    lemma MastermindInPlay(key: string, v0: View, p: seq<string>)
      requires OfMastermind? && v0.budget == InitialGuesses && p != []
      ensures Continues(Replay(key, v0, p)) <==> |p| < InitialGuesses && p[|p| - 1] != key
    {
      ReplayClosedForm(key, v0, p);
      ReplayWon(key, v0, p);
    }

    /**
     * After the Wheel of Fortune turns p from a full budget and nothing guessed, the round is
     * in play exactly when fewer than all guesses were missed and the phrase is still masked.
     */
    lemma WheelInPlay(key: string, v0: View, p: seq<string>)
      requires OfWheel? && v0.budget == InitialGuesses
      requires v0.guessed == [] && v0.won == Won(true, key, v0.guessed, v0.last)
      ensures Continues(Replay(key, v0, p)) <==> Misses(key, p) < InitialGuesses && Hidden in Mask(key, Recorded(p))
    {
      if p != [] {
        ReplayClosedForm(key, v0, p);
        ReplayWon(key, v0, p);
        assert v0.guessed + Recorded(p) == Recorded(p);
      }
    }

    /**
     * The round loop's invariant: the loop has taken `used` of the guesses gs from v0 and
     * reached their replay v, and each turn set out from a replayed view still in play.
     */
    ghost predicate Progress(key: string, v0: View, v: View, gs: seq<string>, used: nat)
    {
      && used <= |gs|
      && v == Replay(key, v0, gs[..used])
      && forall k :: 0 <= k < used ==> Continues(Replay(key, v0, gs[..k]))
    }

    /** A turn taken while the round is still in play keeps the invariant. */
    lemma ProgressStep(key: string, v0: View, v: View, gs: seq<string>, used: nat)
      requires Progress(key, v0, v, gs, used) && used < |gs| && Continues(v)
      ensures Progress(key, v0, Step(key, v, gs[used]), gs, used + 1)
    {
      assert gs[..used + 1][..used] == gs[..used];
    }

    /** What the console code hands over: at least four colours, or a single character. */
    predicate WellFormedGuess(s: string)
    {
      match this
      case OfMastermind(_) => CodeLength <= |s|
      case OfWheel(_) => |s| == 1
    }

    /** The game-specific state a round leaves alone. */
    twostate predicate KeepsRound()
      reads Repr()
    {
      match this
      case OfMastermind(m) => m.secret == old(m.secret)
      case OfWheel(w) => w.phrase == old(w.phrase) && w.phraseList == old(w.phraseList)
    }

    method GetGuess(s: string)
      requires Valid() && !ProcessWin() && WellFormedGuess(s)
      modifies Repr()
      ensures Valid() && KeepsRound()
      ensures GuessesRemaining() == old(GuessesRemaining()) && RoundCounter() == old(RoundCounter())
      ensures OfMastermind? ==> mm.guess == s && CodeLength <= |mm.guess|
      ensures OfWheel? ==> wof.guess == s[0] && wof.previousGuesses == old(wof.previousGuesses) && wof.secret == old(wof.secret)
    {
      match this
      case OfMastermind(m) =>
        m.GetGuess(s);
      case OfWheel(w) =>
        w.GetGuess(s[0]);
    }

    /** A processed guess costs at most one guess; in Mastermind always exactly one. */
    method ProcessGuess()
      requires Valid()
      requires OfMastermind? ==> IsSecret(mm.secret) && CodeLength <= |mm.guess|
      modifies Repr()
      ensures Valid() && KeepsRound() && RoundCounter() == old(RoundCounter())
      ensures old(GuessesRemaining()) - 1 <= GuessesRemaining() <= old(GuessesRemaining())
      ensures OfMastermind? ==> GuessesRemaining() == old(GuessesRemaining()) - 1 && mm.guess == old(mm.guess)
      ensures OfWheel? ==> wof.guess == old(wof.guess)
      ensures OfWheel? ==> wof.previousGuesses == old(wof.previousGuesses) + [wof.guess, Upper(wof.guess)]
      ensures OfWheel? ==> (GuessesRemaining() == old(GuessesRemaining()) <==> Matches(wof.phrase, wof.guess))
    {
      match this
      case OfMastermind(m) =>
        m.ProcessGuess();
      case OfWheel(w) =>
        w.ProcessGuess();
    }

    /** `roundCounter++`: nothing else changes. */
    method CountRound()
      modifies Repr()
      ensures RoundCounter() == old(RoundCounter()) + 1
      ensures OfMastermind? ==> unchanged(mm`secret, mm`guess, mm`guessesRemaining, mm`exacts, mm`partials)
      ensures OfWheel? ==> unchanged(wof`secret, wof`guessesRemaining, wof`phrase, wof`previousGuesses, wof`phraseList, wof`guess)
    {
      match this
      case OfMastermind(m) =>
        m.roundCounter := m.roundCounter + 1;
      case OfWheel(w) =>
        w.roundCounter := w.roundCounter + 1;
    }

    /** `playNext`: the player's reply decides, except that an empty phrase pool ends the session. */
    method PlayNext(reply: Option<bool>) returns (r: Option<bool>)
      requires Valid()
      modifies Repr()
      ensures Valid()
      ensures OfMastermind? ==> r == reply
      ensures OfWheel? ==> r == if old(wof.phraseList) == [] then Some(false) else reply
      ensures r == Some(true) ==> GuessesRemaining() == InitialGuesses
      ensures OfMastermind? ==> mm.guess == old(mm.guess)
      ensures OfWheel? ==> |wof.phraseList| == |old(wof.phraseList)| - (if r == Some(true) then 1 else 0)
      ensures OfMastermind? && r == Some(true) ==> IsSecret(mm.secret)
      ensures OfWheel? && r == Some(true) ==> wof.previousGuesses == []
      ensures OfWheel? ==> multiset(wof.phraseList) + (if r == Some(true) then multiset{wof.phrase} else multiset{})
                           == multiset(old(wof.phraseList))
    {
      match this
      case OfMastermind(m) =>
        r := m.PlayNext(reply);
        assert r == reply by {
          match reply
          case None =>
          case Some(yes) =>
        }
      case OfWheel(w) =>
        r := w.PlayNext(reply);
        if old(w.phraseList) != [] {
          match reply
          case None =>
          case Some(yes) =>
        }
    }

    /** One pass of the round loop's body: read a guess, process it, count the round. */
    method TakeTurn(s: string)
      requires Valid() && !ProcessWin() && WellFormedGuess(s)
      modifies Repr()
      ensures Valid() && KeepsRound()
      ensures Snapshot() == Step(Key(), old(Snapshot()), s)
    {
      GetGuess(s);
      ProcessGuess();
      CountRound();
    }

    /**
     * `play`: the win check runs before every guess; guesses are processed until the round
     * is won or the budget is used up, and the record's score is the guesses left. The
     * guesses are the console input in order; `None` means the input ran out mid-round.
     * The round is specified by `Replay`: the game ends in the replay of the guesses it
     * took, and each of them was taken from a replayed view still in play.
     */
    method Play(guesses: seq<string>) returns (r: Option<GameRecord>, used: nat)
      requires Valid()
      requires forall i :: 0 <= i < |guesses| ==> WellFormedGuess(guesses[i])
      modifies Repr()
      ensures Valid() && KeepsRound() && used <= |guesses|
      ensures Snapshot() == Replay(Key(), old(Snapshot()), guesses[..used])
      ensures forall k :: 0 <= k < used ==> Continues(Replay(Key(), old(Snapshot()), guesses[..k]))
      ensures r.Some? <==> GuessesRemaining() <= 0 || ProcessWin()
      ensures r.None? ==> used == |guesses|
      ensures r.Some? ==> r.value == GameRecord(GuessesRemaining(), DefaultPlayer)
      ensures RoundCounter() == old(RoundCounter()) + used
      ensures used > 0 ==> old(GuessesRemaining()) > 0 && !old(ProcessWin())
      ensures old(GuessesRemaining()) <= 0 || old(ProcessWin()) ==>
                used == 0 && r == Some(GameRecord(old(GuessesRemaining()), DefaultPlayer))
      ensures old(GuessesRemaining()) >= 0 ==> 0 <= GuessesRemaining() <= old(GuessesRemaining())
      ensures used == 0 ==> Snapshot() == old(Snapshot())
      ensures used > 0 ==> LastGuess() == guesses[used - 1]
      ensures OfMastermind? ==> GuessesRemaining() == old(GuessesRemaining()) - used
      ensures OfMastermind? ==> forall t :: 0 <= t < used - 1 ==> guesses[t] != mm.secret
      ensures OfWheel? ==> wof.previousGuesses == old(wof.previousGuesses) + Recorded(guesses[..used])
      ensures OfWheel? ==> GuessesRemaining() == old(GuessesRemaining()) - Misses(wof.phrase, guesses[..used])
      ensures OfWheel? ==> forall k :: 0 < k < used ==>
                Hidden in Mask(wof.phrase, old(wof.previousGuesses) + Recorded(guesses[..k]))
    {
      ghost var v0, key := Snapshot(), Key();
      used := Turns(guesses);
      RoundFacts(key, v0, guesses, used);
      if Continues(Snapshot()) {
        r := None;
      } else {
        r := Some(GameRecord(GuessesRemaining(), DefaultPlayer));
      }
    }

    /**
     * The round loop of `play`: the win check and the budget are looked at before every
     * guess, and the loop stops when the round is no longer in play or the input runs out.
     */
    method Turns(guesses: seq<string>) returns (used: nat)
      requires Valid()
      requires forall i :: 0 <= i < |guesses| ==> WellFormedGuess(guesses[i])
      modifies Repr()
      ensures Valid() && KeepsRound()
      ensures Progress(Key(), old(Snapshot()), Snapshot(), guesses, used)
      ensures used < |guesses| ==> !Continues(Snapshot())
    {
      used := 0;
      ghost var v0, key := Snapshot(), Key();
      while GuessesRemaining() >= 0
        invariant Valid() && KeepsRound() && Key() == key
        invariant Progress(key, v0, Snapshot(), guesses, used)
        decreases |guesses| - used
      {
        if GuessesRemaining() == 0 || ProcessWin() {
          break;
        }
        if used == |guesses| {
          break;
        }
        ghost var before := Snapshot();
        TakeTurn(guesses[used]);
        ProgressStep(key, v0, before, guesses, used);
        used := used + 1;
      }
    }

    /**
     * A round started from a full budget, as `playAll` plays it on the guesses from `from`
     * on: its record is the user's, scored 0 to 5, and is the outcome of the `n` guesses it
     * took on the round's secret or phrase `key`. A Wheel of Fortune round starts with nothing
     * guessed, as `loadNewGame` leaves it.
     */
    method PlayRound(guesses: seq<string>, from: nat) returns (r: Option<GameRecord>, n: nat, ghost key: string)
      requires Valid() && GuessesRemaining() == InitialGuesses && from <= |guesses|
      requires OfWheel? ==> wof.previousGuesses == []
      requires forall i :: 0 <= i < |guesses| ==> WellFormedGuess(guesses[i])
      modifies Repr()
      ensures Valid() && KeepsRound() && from + n <= |guesses| && key == Key()
      ensures r.Some? ==> r.value.playerId == DefaultPlayer && 0 <= r.value.score <= InitialGuesses
      ensures r.Some? ==> Outcome(OfMastermind?, key, guesses[from..from + n], r.value.score)
      ensures r.None? ==> from + n == |guesses|
    {
      ghost var v0 := Snapshot();
      assert OfWheel? ==> v0.won == Won(true, Key(), v0.guessed, v0.last);
      var rest := guesses[from..];
      r, n := Play(rest);
      key := Key();
      if r.Some? {
        ghost var seg := guesses[from..from + n];
        forall k | 0 <= k < n ensures Continues(Replay(key, v0, seg[..k])) {
          assert seg[..k] == rest[..k];
        }
        assert seg == rest[..n];
        RoundOutcome(key, v0, seg);
      }
    }

    /**
     * The round that follows a yes, played from guess `used` on: when it finishes, its record,
     * its key and its guesses extend the session.
     */
    method SessionRound(answers: seq<bool>, guesses: seq<string>, ghost pool: seq<string>, ghost before: seq<string>,
                        ghost rounds: seq<GameRecord>, ghost keys: seq<string>, ghost segments: seq<seq<string>>,
                        used: nat)
      returns (r: Option<GameRecord>, n: nat, ghost key: string)
      requires Valid() && GuessesRemaining() == InitialGuesses
      requires OfWheel? ==> wof.previousGuesses == []
      requires OfMastermind? ==> IsSecret(mm.secret)
      requires forall i :: 0 <= i < |guesses| ==> WellFormedGuess(guesses[i])
      requires Session(OfMastermind?, answers, guesses, rounds, keys, segments, used)
      requires |rounds| < |answers| && answers[|rounds|]
      requires OfWheel? ==> Drawn(pool, before, keys) && multiset(wof.phraseList) + multiset{wof.phrase} == multiset(before)
      modifies Repr()
      ensures Valid()
      ensures r.Some? ==> used + n <= |guesses|
      ensures r.Some? ==> Session(OfMastermind?, answers, guesses, rounds + [r.value], keys + [key],
                                  segments + [guesses[used..used + n]], used + n)
      ensures r.Some? && OfWheel? ==> Drawn(pool, wof.phraseList, keys + [key])
    {
      r, n, key := PlayRound(guesses, used);
      if r.Some? {
        SessionStep(OfMastermind?, answers, guesses, rounds, keys, segments, used, r.value, key, n);
        if OfWheel? {
          DrawnStep(pool, before, wof.phraseList, keys, key);
        }
      }
    }

    /**
     * One pass of `playAll`'s loop: `playNext` decides, and after a yes a round is played.
     * `game` is `None` when the guesses ran out during the round; otherwise its record, key
     * and guesses extend the session. After a no, the session is over.
     */
    method NextRound(answers: seq<bool>, guesses: seq<string>, ghost pool: seq<string>,
                     ghost rounds: seq<GameRecord>, ghost keys: seq<string>, ghost segments: seq<seq<string>>,
                     used: nat, asked: nat)
      returns (going: Option<bool>, game: Option<GameRecord>, n: nat, ghost key: string)
      requires Valid() && asked == |rounds|
      requires forall i :: 0 <= i < |guesses| ==> WellFormedGuess(guesses[i])
      requires Session(OfMastermind?, answers, guesses, rounds, keys, segments, used)
      requires OfWheel? ==> Drawn(pool, wof.phraseList, keys)
      modifies Repr()
      ensures Valid() && (OfWheel? ==> multiset(keys) <= multiset(pool))
      ensures going == Some(false) && OfMastermind? ==> |rounds| < |answers| && !answers[|rounds|]
      ensures going == Some(false) && OfWheel? ==> Drawn(pool, wof.phraseList, keys)
      ensures going == Some(false) && OfWheel? ==> wof.phraseList == [] || (|rounds| < |answers| && !answers[|rounds|])
      ensures going == Some(true) && game.Some? ==> used + n <= |guesses|
      ensures going == Some(true) && game.Some? ==> Session(OfMastermind?, answers, guesses, rounds + [game.value], keys + [key],
                                                            segments + [guesses[used..used + n]], used + n)
      ensures going == Some(true) && game.Some? && OfWheel? ==> Drawn(pool, wof.phraseList, keys + [key])
    {
      ghost var before := if OfWheel? then wof.phraseList else [];
      if OfWheel? {
        DrawnSizes(pool, before, keys);
      }
      var reply := if asked < |answers| then Some(answers[asked]) else None;
      going := PlayNext(reply);
      game, n, key := None, 0, Key();
      if going == Some(true) {
        game, n, key := SessionRound(answers, guesses, pool, before, rounds, keys, segments, used);
      }
    }

    /**
     * `playAll`'s loop on the ledger `ledger`: while `playNext` says yes, play a round and add
     * its record. `rounds` are the records added, in the order the rounds were played; round t
     * was played on the secret or phrase `keys[t]` with the guesses `segments[t]`, and the
     * segments joined are the first `used` guesses. `false` means the input ran out.
     */
    method RunSession(ledger: AllGamesRecord, answers: seq<bool>, guesses: seq<string>)
      returns (ok: bool, ghost rounds: seq<GameRecord>, ghost keys: seq<string>,
               ghost segments: seq<seq<string>>, used: nat)
      requires Valid() && ledger !in Repr() && ledger.gameRecords == []
      requires forall i :: 0 <= i < |guesses| ==> WellFormedGuess(guesses[i])
      modifies Repr(), ledger
      ensures Valid() && ledger.gameRecords == rounds
      ensures Session(OfMastermind?, answers, guesses, rounds, keys, segments, used)
      ensures OfWheel? ==> multiset(keys) <= multiset(old(wof.phraseList))
      ensures ok && OfMastermind? ==> |rounds| < |answers| && !answers[|rounds|]
      ensures ok && OfWheel? ==> wof.phraseList == [] || (|rounds| < |answers| && !answers[|rounds|])
      ensures OfWheel? ==> |rounds| <= |old(wof.phraseList)|
      ensures ok && OfWheel? ==> |wof.phraseList| == |old(wof.phraseList)| - |rounds|
    {
      var asked := 0;
      ghost var pool := if OfWheel? then wof.phraseList else [];
      rounds, keys, segments, used := [], [], [], 0;
      while true
        invariant Valid() && ledger.gameRecords == rounds && asked == |rounds|
        invariant Session(OfMastermind?, answers, guesses, rounds, keys, segments, used)
        invariant OfWheel? ==> pool == old(wof.phraseList) && Drawn(pool, wof.phraseList, keys)
        decreases |answers| - asked
      {
        var going, game, n, key := NextRound(answers, guesses, pool, rounds, keys, segments, used, asked);
        if going.None? {
          return false, rounds, keys, segments, used;
        } else if !going.value {
          break;
        } else if game.None? {
          return false, rounds, keys, segments, used;
        }
        ledger.AddGameRecord(game.value);
        asked := asked + 1;
        rounds, keys, segments, used := rounds + [game.value], keys + [key], segments + [guesses[used..used + n]], used + n;
      }
      if OfWheel? {
        DrawnSizes(pool, wof.phraseList, keys);
      }
      ok := true;
    }

    /**
     * `playAll`: while `playNext` says yes, play a round and add its record to a new ledger.
     * `rounds` are the records in the ledger, in the order the rounds were played; round t
     * was played on the secret or phrase `keys[t]` with the guesses `segments[t]`, and the
     * segments joined are a prefix of `guesses`. `None` means the input ran out.
     */
    method PlayAll(answers: seq<bool>, guesses: seq<string>)
      returns (r: Option<AllGamesRecord>, ghost rounds: seq<GameRecord>,
               ghost keys: seq<string>, ghost segments: seq<seq<string>>, used: nat)
      requires Valid()
      requires forall i :: 0 <= i < |guesses| ==> WellFormedGuess(guesses[i])
      modifies Repr()
      ensures Valid()
      ensures r.Some? ==> fresh(r.value) && r.value.gameRecords == rounds
      ensures Session(OfMastermind?, answers, guesses, rounds, keys, segments, used)
      ensures OfWheel? ==> multiset(keys) <= multiset(old(wof.phraseList))
      ensures r.Some? && OfMastermind? ==> |rounds| < |answers| && !answers[|rounds|]
      ensures r.Some? && OfWheel? ==> wof.phraseList == [] || (|rounds| < |answers| && !answers[|rounds|])
      ensures OfWheel? ==> |rounds| <= |old(wof.phraseList)|
      ensures r.Some? && OfWheel? ==> |wof.phraseList| == |old(wof.phraseList)| - |rounds|
    {
      var allGamesRecord := new AllGamesRecord();
      var ok;
      ok, rounds, keys, segments, used := RunSession(allGamesRecord, answers, guesses);
      r := if ok then Some(allGamesRecord) else None;
    }
  }

  /**
   * A Mastermind round won with its first guess scores four: the winning guess costs one,
   * and the round stops there, whatever guesses follow.
   */
  method FirstGuessWinScoresFour(m: MastermindGame, rest: seq<string>) returns (r: Option<GameRecord>, used: nat)
    requires m.Valid() && IsSecret(m.secret) && m.guess == [] && m.guessesRemaining == InitialGuesses
    requires forall i :: 0 <= i < |rest| ==> CodeLength <= |rest[i]|
    modifies m
    ensures used == 1 && r == Some(GameRecord(InitialGuesses - 1, DefaultPlayer))
  {
    var g := OfMastermind(m);
    var guesses := [m.secret] + rest;
    assert guesses[0] == m.secret;
    r, used := g.Play(guesses);
  }

  /** The two turns on "ab": a then b are recorded in both cases, cost nothing, and reveal it. */
  lemma TwoLetterTurns()
    ensures Recorded(["a"]) == "aA" && Recorded(["a", "b"]) == "aAbB"
    ensures Misses("ab", ["a"]) == 0 && Misses("ab", ["a", "b"]) == 0
    ensures Hidden in Mask("ab", "") && Hidden in Mask("ab", "aA") && Hidden !in Mask("ab", "aAbB")
  {
    assert ["a", "b"][..1] == ["a"] && ["a"][..0] == [];
    assert Both("a") == "aA" && Both("b") == "bB";
    TwoLetterMasks();
  }

  lemma TwoLetterMasks()
    ensures Mask("ab", "") == "**" && Mask("ab", "aA") == "a*" && Mask("ab", "aAbB") == "ab"
  {
    assert "ab"[..1] == "a" && "a"[..0] == "";
  }

  /**
   * The phrase "ab" with nothing guessed: guessing a, then b, reveals it with no guess
   * charged, so the round scores five.
   */
  method TwoLetterPhraseScoresFive(w: WheelOfFortuneGame) returns (r: Option<GameRecord>, used: nat)
    requires w.Valid() && w.phrase == "ab" && w.previousGuesses == [] && w.guessesRemaining == InitialGuesses
    modifies w
    ensures used == 2 && r == Some(GameRecord(InitialGuesses, DefaultPlayer))
  {
    var g := OfWheel(w);
    var guesses := ["a", "b"];
    r, used := g.Play(guesses);
    TwoLetterStop(used, w.previousGuesses, w.guessesRemaining, w.secret);
  }

  /**
   * Where a round on "ab" guessed a then b can stop: a state after fewer than both guesses
   * is neither out of guesses nor won, so both are taken, and neither costs a guess.
   */
  lemma TwoLetterStop(used: nat, guessed: string, budget: int, shown: string)
    requires used <= 2 && guessed == Recorded(["a", "b"][..used]) && shown == Mask("ab", guessed)
    requires budget == InitialGuesses - Misses("ab", ["a", "b"][..used])
    requires used < 2 ==> budget <= 0 || Hidden !in shown
    ensures used == 2 && budget == InitialGuesses && Hidden !in shown
  {
    assert ["a", "b"][..0] == [] && ["a", "b"][..1] == ["a"] && ["a", "b"][..2] == ["a", "b"];
    TwoLetterTurns();
  }

  /**
   * Mastermind played before any `loadNewGame`: the constructor's empty secret equals its
   * empty guess, so the round counts as won before any guess and scores five.
   */
  method UnloadedRoundScoresFive(m: MastermindGame, guesses: seq<string>) returns (r: Option<GameRecord>, used: nat)
    requires m.secret == [] && m.guess == [] && m.guessesRemaining == InitialGuesses
    requires forall i :: 0 <= i < |guesses| ==> CodeLength <= |guesses[i]|
    modifies m
    ensures used == 0 && r == Some(GameRecord(InitialGuesses, DefaultPlayer))
  {
    var g := OfMastermind(m);
    r, used := g.Play(guesses);
  }

  /** A round on a phrase with no letters (and no `*`) is won before any guess and scores five. */
  method NoLetterPhraseScoresFive(w: WheelOfFortuneGame, guesses: seq<string>) returns (r: Option<GameRecord>, used: nat)
    requires w.Valid() && w.previousGuesses == [] && w.guessesRemaining == InitialGuesses
    requires Hidden !in w.phrase && forall i :: 0 <= i < |w.phrase| ==> !IsLetter(w.phrase[i])
    requires forall i :: 0 <= i < |guesses| ==> |guesses[i]| == 1
    modifies w
    ensures used == 0 && r == Some(GameRecord(InitialGuesses, DefaultPlayer))
  {
    var g := OfWheel(w);
    assert w.ProcessWin();
    r, used := g.Play(guesses);
  }

  /**
   * As written, `playNext` starts a round through `loadNewGame`, which keeps the previous
   * round's last guess. When the fresh secret happens to equal it (RGBY both times, which
   * the draw allows), the next round is won before the player guesses and scores five.
   */
  method StaleGuessWinsNextRound(m: MastermindGame, guesses: seq<string>) returns (r: Option<GameRecord>, used: nat)
    requires m.Valid() && m.guess == "RGBY"
    requires forall i :: 0 <= i < |guesses| ==> CodeLength <= |guesses[i]|
    modifies m
    ensures m.secret == "RGBY" ==> used == 0 && r == Some(GameRecord(InitialGuesses, DefaultPlayer))
  {
    var g := OfMastermind(m);
    var next := g.PlayNext(Some(true));
    r, used := g.Play(guesses);
  }
}
