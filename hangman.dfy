/**
 * The Hangman game: a word to guess, the guessed letters, the wrong ones and the phase.
 * The state object is updated in place by `set_state` and `apply_action`.
 */
module HangmanGame {
  import opened Wrappers

  datatype GamePhase = Setup | Running | Finished

  datatype GuessLetterAction = GuessLetterAction(letter: string)

  /** The exception raised by `get_state` when no state is set. */
  datatype HangmanError = StateNotSet

  /** Number of wrong guesses that ends the game. */
  const MaxIncorrect: nat := 8

  // ---------------------------------------------------------------------------
  // Strings

  /** `str.upper` on one character, restricted to ASCII letters. */
  function UpperChar(c: char): char {
    if 'a' <= c <= 'z' then (c as int - 32) as char else c
  }

  /** `str.upper`, character by character. */
  function Upper(s: string): (u: string)
    ensures |u| == |s|
  {
    seq(|s|, i requires 0 <= i < |s| => UpperChar(s[i]))
  }

  lemma UpperIdempotent(s: string)
    ensures Upper(Upper(s)) == Upper(s)
  {
  }

  /** Python's `needle in hay` on strings: `needle` occurs as a contiguous substring. */
  predicate Contains(hay: string, needle: string)
    decreases |hay|
  {
    needle <= hay || (hay != [] && Contains(hay[1..], needle))
  }

  /** The upper-cased guess does not occur in the upper-cased word. */
  predicate IsWrong(word: string, letter: string) {
    !Contains(Upper(word), Upper(letter))
  }

  /** Every character of the upper-cased word is, as a one-letter string, among the guesses. */
  predicate AllRevealed(word: string, guesses: seq<string>) {
    forall i :: 0 <= i < |Upper(word)| ==> [Upper(word)[i]] in guesses
  }

  /**
   * What `set_state` appends to the wrong guesses: each guess, upper-cased, whose raw
   * text does not occur in the upper-cased word, in guess order.
   */
  function WrongGuesses(word: string, guesses: seq<string>): (r: seq<string>)
    ensures |r| <= |guesses|
    ensures r == [] <==> forall g :: g in guesses ==> Contains(Upper(word), g)
    ensures forall x :: x in r ==> exists g :: g in guesses && !Contains(Upper(word), g) && x == Upper(g)
    ensures forall i :: 0 <= i < |guesses| && !Contains(Upper(word), guesses[i]) ==> Upper(guesses[i]) in r
  {
    if guesses == [] then []
    else
      var init, last := guesses[..|guesses| - 1], guesses[|guesses| - 1];
      assert forall g :: g in guesses <==> g in init || g == last;
      assert forall i :: 0 <= i < |init| ==> init[i] == guesses[i];
      WrongGuesses(word, init) + (if Contains(Upper(word), last) then [] else [Upper(last)])
  }

  /** `set_state`'s selection commutes with concatenation, so the wrong guesses keep their guess order. */
  lemma {:induction false} WrongGuessesAppend(word: string, a: seq<string>, b: seq<string>)
    ensures WrongGuesses(word, a + b) == WrongGuesses(word, a) + WrongGuesses(word, b)
    decreases |b|
  {
    if b != [] {
      var init := b[..|b| - 1];
      assert (a + b)[..|a + b| - 1] == a + init;
      WrongGuessesAppend(word, a, init);
    } else {
      assert a + b == a;
    }
  }

  // ---------------------------------------------------------------------------
  // The state as a value, and one guess applied to it

  datatype StateValue = StateValue(wordToGuess: string, phase: GamePhase, guesses: seq<string>, incorrectGuesses: seq<string>)

  /**
   * The state after guessing `letter`: the upper-cased letter is appended to the
   * guesses, and to the wrong guesses when it does not occur in the word; the game is
   * finished when the word is revealed or the wrong guesses reach eight on a wrong
   * guess, and running otherwise, whatever the phase was before.
   */
  function AfterGuess(v: StateValue, letter: string): (w: StateValue)
    ensures w.wordToGuess == v.wordToGuess
    ensures w.guesses == v.guesses + [Upper(letter)]
    ensures IsWrong(v.wordToGuess, letter) ==> w.incorrectGuesses == v.incorrectGuesses + [Upper(letter)]
    ensures !IsWrong(v.wordToGuess, letter) ==> w.incorrectGuesses == v.incorrectGuesses
    ensures w.phase == Finished <==>
      AllRevealed(v.wordToGuess, w.guesses) || (IsWrong(v.wordToGuess, letter) && |w.incorrectGuesses| >= MaxIncorrect)
    ensures w.phase != Finished ==> w.phase == Running
  {
    var guesses := v.guesses + [Upper(letter)];
    var phase := if AllRevealed(v.wordToGuess, guesses) then Finished else Running;
    if IsWrong(v.wordToGuess, letter) then
      var incorrect := v.incorrectGuesses + [Upper(letter)];
      StateValue(v.wordToGuess, if |incorrect| >= MaxIncorrect then Finished else phase, guesses, incorrect)
    else
      StateValue(v.wordToGuess, phase, guesses, v.incorrectGuesses)
  }

  /** The state after guessing the letters one after another. */
  function Play(v: StateValue, letters: seq<string>): StateValue {
    if letters == [] then v
    else AfterGuess(Play(v, letters[..|letters| - 1]), letters[|letters| - 1])
  }

  /** The upper-cased letters, in order. */
  function UpperAll(letters: seq<string>): (us: seq<string>)
    ensures |us| == |letters| && forall i :: 0 <= i < |letters| ==> us[i] == Upper(letters[i])
  {
    seq(|letters|, i requires 0 <= i < |letters| => Upper(letters[i]))
  }

  /** Guessing never changes the word, and only appends the upper-cased letters to the guesses. */
  lemma {:induction false} PlayGuesses(v: StateValue, letters: seq<string>)
    ensures Play(v, letters).wordToGuess == v.wordToGuess
    ensures Play(v, letters).guesses == v.guesses + UpperAll(letters)
  {
    if letters != [] {
      var init := letters[..|letters| - 1];
      PlayGuesses(v, init);
      assert UpperAll(letters) == UpperAll(init) + [Upper(letters[|letters| - 1])];
    }
  }

  /**
   * The wrong guesses recorded one guess at a time are exactly what `set_state` would
   * derive from the recorded (upper-cased) guesses.
   */
  lemma {:induction false} PlayIncorrect(v: StateValue, letters: seq<string>)
    ensures Play(v, letters).incorrectGuesses == v.incorrectGuesses + WrongGuesses(v.wordToGuess, UpperAll(letters))
  {
    if letters != [] {
      var init, last := letters[..|letters| - 1], letters[|letters| - 1];
      PlayIncorrect(v, init);
      PlayGuesses(v, init);
      assert UpperAll(letters)[..|letters| - 1] == UpperAll(init);
      UpperIdempotent(last);
    }
  }

  /**
   * A game played from no guesses can be handed to `set_state` with an empty list of
   * wrong guesses, and `set_state` rebuilds exactly the wrong guesses the play recorded.
   */
  lemma {:induction false} SetStateAgreesWithPlay(v: StateValue, letters: seq<string>)
    requires v.guesses == [] && v.incorrectGuesses == []
    ensures Play(v, letters).incorrectGuesses == WrongGuesses(v.wordToGuess, Play(v, letters).guesses)
  {
    var w := Play(v, letters);
    PlayIncorrect(v, letters);
    PlayGuesses(v, letters);
    assert w.guesses == UpperAll(letters);
    assert w.incorrectGuesses == WrongGuesses(v.wordToGuess, UpperAll(letters));
  }

  /** With only wrong letters, the wrong guesses grow by one per letter. */
  lemma {:induction false} PlayAllWrong(v: StateValue, letters: seq<string>)
    requires forall l :: l in letters ==> IsWrong(v.wordToGuess, l)
    ensures |Play(v, letters).incorrectGuesses| == |v.incorrectGuesses| + |letters|
  {
    if letters != [] {
      var init := letters[..|letters| - 1];
      assert forall l :: l in init ==> l in letters;
      PlayAllWrong(v, init);
      PlayGuesses(v, init);
      assert letters[|letters| - 1] in letters;
    }
  }

  /** Once the wrong guesses reach eight, the wrong letter that got them there ends the game. */
  lemma EightWrongGuessesFinish(v: StateValue, letters: seq<string>)
    requires letters != []
    requires forall l :: l in letters ==> IsWrong(v.wordToGuess, l)
    requires |v.incorrectGuesses| + |letters| >= MaxIncorrect
    ensures Play(v, letters).phase == Finished
  {
    PlayAllWrong(v, letters);
    PlayGuesses(v, letters[..|letters| - 1]);
    assert letters[|letters| - 1] in letters;
  }

  /** A repeated wrong letter is recorded, and counted, again. */
  lemma RepeatedWrongGuessCountsAgain(v: StateValue, letter: string)
    requires IsWrong(v.wordToGuess, letter)
    ensures AfterGuess(AfterGuess(v, letter), letter).incorrectGuesses == v.incorrectGuesses + [Upper(letter), Upper(letter)]
    ensures AfterGuess(AfterGuess(v, letter), letter).guesses == v.guesses + [Upper(letter), Upper(letter)]
  {
  }

  /** A revealed word stays revealed: any further guess leaves the game finished. */
  lemma RevealedStaysFinished(v: StateValue, letter: string)
    requires AllRevealed(v.wordToGuess, v.guesses)
    ensures AfterGuess(v, letter).phase == Finished
  {
    var w := AfterGuess(v, letter);
    assert forall g :: g in v.guesses ==> g in w.guesses;
  }

  /**
   * A right guess that does not complete the word leaves the game running, whatever the
   * phase was before: the phase is reset before the guess is judged, so a game lost on
   * eight wrong guesses is open again.
   */
  lemma RightGuessReopens(v: StateValue, letter: string)
    requires !IsWrong(v.wordToGuess, letter)
    requires !AllRevealed(v.wordToGuess, v.guesses + [Upper(letter)])
    ensures AfterGuess(v, letter).phase == Running
  {
  }

  /** An instance: the word "AB" lost on eight wrong guesses is running again after "a". */
  lemma LostGameReopens()
    ensures var lost := StateValue("AB", Finished, ["C", "D", "E", "F", "G", "H", "I", "J"], ["C", "D", "E", "F", "G", "H", "I", "J"]);
      |lost.incorrectGuesses| == MaxIncorrect && AfterGuess(lost, "a").phase == Running
  {
    var lost := StateValue("AB", Finished, ["C", "D", "E", "F", "G", "H", "I", "J"], ["C", "D", "E", "F", "G", "H", "I", "J"]);
    assert Upper("a") == "A" && Upper("AB") == "AB";
    assert Contains("AB", "A");
    assert "B" !in lost.guesses + ["A"];
    assert Upper("AB")[1] == 'B';
    RightGuessReopens(lost, "a");
  }

  /**
   * `set_state` tests the raw guess, `apply_action` the upper-cased one: a lower-case
   * guess of a letter in the word counts as wrong in the first and right in the second.
   */
  lemma SetStateIsCaseSensitive()
    ensures WrongGuesses("a", ["a"]) == ["A"]
    ensures AfterGuess(StateValue("a", Running, [], []), "a").incorrectGuesses == []
  {
    assert Upper("a") == "A";
    assert !Contains("A", "a") by {
      assert "a"[0] != "A"[0];
      assert !("a" <= "A");
      assert "A"[1..] == [];
    }
    assert ["a"][..0] == [];
    assert Contains("A", "A");
  }

  // ---------------------------------------------------------------------------
  // The game objects

  /** The mutable state record shared between the caller and the game. */
  class HangmanGameState {
    var wordToGuess: string
    var phase: GamePhase
    var guesses: seq<string>
    var incorrectGuesses: seq<string>

    constructor (wordToGuess: string, phase: GamePhase, guesses: seq<string>, incorrectGuesses: seq<string>)
      ensures Value() == StateValue(wordToGuess, phase, guesses, incorrectGuesses)
    {
      this.wordToGuess := wordToGuess;
      this.phase := phase;
      this.guesses := guesses;
      this.incorrectGuesses := incorrectGuesses;
    }

    function Value(): StateValue
      reads this
    {
      StateValue(wordToGuess, phase, guesses, incorrectGuesses)
    }
  }

  class Hangman {
    var state: HangmanGameState?

    /** The word argument is ignored; the state is set later by `SetState`. */
    constructor (wordToGuess: string)
      ensures state == null
    {
      state := null;
    }

    /** The stored state object, or `StateNotSet` when there is none. */
    method GetState() returns (r: Result<HangmanGameState, HangmanError>)
      ensures r.Ok? <==> state != null
      ensures state != null ==> r.value == state
    {
      if state == null {
        r := Err(StateNotSet);
      } else {
        r := Ok(state);
      }
    }

    /**
     * Appends to the given state's wrong guesses every guess that does not occur in the
     * word (see `WrongGuesses`), then stores that very object. Applied twice to the same
     * object, it appends those guesses twice.
     */
    method SetState(st: HangmanGameState)
      modifies this, st
      ensures state == st
      ensures st.wordToGuess == old(st.wordToGuess) && st.phase == old(st.phase) && st.guesses == old(st.guesses)
      ensures st.incorrectGuesses == old(st.incorrectGuesses) + WrongGuesses(st.wordToGuess, st.guesses)
    {
      var i := 0;
      while i < |st.guesses|
        invariant 0 <= i <= |st.guesses|
        invariant st.wordToGuess == old(st.wordToGuess) && st.phase == old(st.phase) && st.guesses == old(st.guesses)
        invariant st.incorrectGuesses == old(st.incorrectGuesses) + WrongGuesses(st.wordToGuess, st.guesses[..i])
      {
        var letter := st.guesses[i];
        assert st.guesses[..i + 1][..i] == st.guesses[..i];
        if !Contains(Upper(st.wordToGuess), letter) {
          st.incorrectGuesses := st.incorrectGuesses + [Upper(letter)];
        }
        i := i + 1;
      }
      assert st.guesses[..i] == st.guesses;
      state := st;
    }

    /** Applies one guess to the stored state object in place. */
    method ApplyAction(action: GuessLetterAction)
      requires state != null
      modifies state
      ensures state.Value() == AfterGuess(old(state.Value()), action.letter)
    {
      var st := state;
      if st.phase != Running {
        st.phase := Running;
      }
      st.guesses := st.guesses + [Upper(action.letter)];
      if AllRevealed(st.wordToGuess, st.guesses) {
        st.phase := Finished;
      }
      if !Contains(Upper(st.wordToGuess), Upper(action.letter)) {
        st.incorrectGuesses := st.incorrectGuesses + [Upper(action.letter)];
        if |st.incorrectGuesses| >= MaxIncorrect {
          st.phase := Finished;
        }
      }
    }
  }
}
