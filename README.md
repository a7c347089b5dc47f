# Dog and Hangman game engines — a verified Dafny model

This project models the rules-engine code in `server/py/dog.py` and `server/py/hangman.py`.

**Dog** is a four-player marble game played with cards. The model covers:

- the 110-card deck: two copies of a block of 52 suited cards plus 3 jokers;
- the board table: each colour's four kennel cells and its start cell on the 64-cell ring;
- the start of a game: the shuffled deck is dealt into four 6-card hands and an 86-card draw pile, and every marble sits on its colour's kennel cells;
- the state accessors `get_state` and `set_state`;
- the split of a player's marbles by their kennel flag;
- the action generator for a player whose four marbles are all in the kennel. It emits one "leave the kennel" move per joker, ace or king in hand. Each move goes from the lowest kennel cell to the colour's start cell.

**Hangman** is a word-guessing game. The model covers the state object and the three operations that change or read it:

- `set_state` records the wrong guesses already present in a supplied state;
- `apply_action` records one guess and decides whether the game is finished;
- `get_state` returns the stored state.

Files:

- `wrappers.dfy`: `Option` and `Result`.
- `dog_cards.dfy`: `Card`, the deck `ListCard` and its composition.
- `dog_board.dfy`: colours, kennel cells and start cells.
- `dog_game.dfy`: the game-state records, the initial deal, the marble partition, the kennel action generator and the `Dog` class.
- `hangman.dfy`: the string helpers (`Upper`, `Contains`), the value-level specification `AfterGuess` and the `HangmanGameState` and `Hangman` classes.

How the Python is rendered:

- A state the Python updates in place is a Dafny class. This applies to the `Dog` game, whose `state` field is reassigned, and to the Hangman state object. Hangman's `set_state` mutates the caller's object and then keeps a reference to it, and the model keeps that aliasing. The Dog `GameState` itself is a value (see "## Left out").
- Pure computations are functions, and the loops are methods with invariants.
- The Python `x in s` on strings is a substring test. It is modelled by `Contains`.
- `str.upper` is modelled by `Upper`, on ASCII letters.
- Python's negative list indices are modelled in `ActivePlayer`.
- The shuffle is a constructor parameter. It is constrained to be a permutation of the deck.

In Dog a joker may also stand for another card. `_if_all_marbles_in_kennel` emits only start moves, and the model follows the code.

## Model

| member | source | states |
|---|---|---|
| `DogCards.DeckComposition` | server/py/dog.py:46-75 | The deck has 110 cards. Every (suit, rank) pair of the 4 suits and 13 ordinary ranks occurs exactly twice, the empty-suit joker occurs 6 times, and no other card occurs. |
| `DogBoard.BoardLayout` | server/py/dog.py:89-105 | Colour k (blue, green, red, yellow) has kennel cells 64+8k .. 67+8k in increasing order and start cell 16k. The start cell is on the ring 0..63 and every kennel cell is off it, between 64 and 91. |
| `DogBoard.KennelsDisjoint` | server/py/dog.py:89-105 | No cell is a kennel cell of two different colours. |
| `DogGame.InitialState` | server/py/dog.py:110-149 | There are 4 players, and the player count is 4 (the field's default). Player i (blue, green, red, yellow) is named Tick, Trick, Track and Donald respectively and holds exactly the slice [6i, 6i+6) of the shuffled deck. The hands followed by the draw pile give back the shuffled deck, so no card is lost or duplicated, and they hold the deck's cards. The draw pile has 86 cards. Phase is RUNNING, round is 1, cards are not exchanged, the starting and active player are 0, the discard pile is empty and there is no active card. Each player's four marbles are on the colour's four kennel cells, in order, flagged in the kennel and not safe. |
| `DogGame.NewPlayer` | server/py/dog.py:121-144 | A seated player keeps the given name, colour and hand, and every marble is at home on the colour's kennel cells. |
| `DogGame.DealtHands` | server/py/dog.py:124-142 | Four hands dealt as the slices [0,6), [6,12), [12,18) and [18,24) of the deck hold, in seat order, exactly its first 24 cards. |
| `DogGame.Dog.constructor` | server/py/dog.py:110-149 | A new game stores the initial state dealt from the given shuffle of the deck. |
| `DogGame.Dog.SetState` | server/py/dog.py:151-153 | The given state replaces the stored one. A following `GetState` therefore returns it unchanged. |
| `DogGame.Dog.GetState` | server/py/dog.py:155-159 | Returns the stored state unchanged. Fails with `StateNotSet` exactly when no state is stored. |
| `DogGame.MarblesWhere` | server/py/dog.py:176-185 | Every selected marble has the requested kennel flag, and there are no more selected marbles than marbles. |
| `DogGame.MarblesWhereMembers` | server/py/dog.py:180-184 | A marble is selected exactly when it is one of the player's marbles and its kennel flag has the requested value. |
| `DogGame.MarblesWhereAppend` | server/py/dog.py:179-184 | Selecting from a concatenation gives the concatenation of the selections, so each list keeps the marbles' relative order. |
| `DogGame.PartitionConserves` | server/py/dog.py:176-185 | The in-play and in-kennel lists together hold each marble exactly once: their lengths sum to the number of marbles and their multisets add up to the player's. |
| `DogGame.Dog.MarblesInKennelAndInPlay` | server/py/dog.py:176-185 | The loop returns, as its first list, the marbles not flagged in the kennel and, as its second, those flagged, each in the original order. |
| `DogGame.StartCards` | server/py/dog.py:205-206 | A card is selected exactly when it is in the hand and its rank is JKR, A or K. |
| `DogGame.StartCardsCount` | server/py/dog.py:205-206 | Repeats are kept: a card is selected as often as the hand holds it if its rank is JKR, A or K, and otherwise not at all. |
| `DogGame.NoStartCards` | server/py/dog.py:194-196 | A hand without a JKR, A or K card yields no start cards. |
| `DogGame.StartCardsAppend` | server/py/dog.py:205-206 | Selecting start cards from a concatenation gives the concatenation of the selections, so the result keeps hand order. |
| `DogGame.MinOf` | server/py/dog.py:202 | `min` returns an element of the list that is no greater than any element. |
| `DogGame.TwoDigitOrder` | server/py/dog.py:198-202 | For two two-digit cell numbers, Python's string order on their texts is the numeric order. |
| `DogGame.StrMinOf` | server/py/dog.py:202 | Python's `min` over a list of strings returns one of the strings. |
| `DogGame.TextMinIsNumericMin` | server/py/dog.py:198-202 | For a non-empty list of two-digit cell numbers, `min` over their texts is the text of the numeric minimum, so the numeric `MinOf` used by the model names the same cell as the source's string minimum. |
| `DogGame.IfAllMarblesInKennel` | server/py/dog.py:187-207 | The result is empty exactly when the hand holds no JKR, A or K. Otherwise there is one action per such card, in hand order. Each action carries that card and no swap card, goes to the colour's start cell, and comes from the least position among the kennel marbles. |
| `DogGame.ListAction` | server/py/dog.py:165-174 | Returns actions exactly when four of the active player's marbles are flagged in the kennel, and nothing otherwise. The actions are empty exactly when no start card is held. Each uses a JKR, A or K card from the player's hand, goes to the player's start cell, and comes from the cell of one of the player's kennel marbles. There is one action per start card, in hand order, each carrying that card and no swap card, and every action comes from the least cell among the player's kennel marbles. |
| `DogGame.Dog.GetListAction` | server/py/dog.py:165-174 | The method that partitions the marbles and calls the generator returns what `ListAction` specifies for the stored state. |
| `DogGame.HomeActions` | server/py/dog.py:198-207 | For a player whose marbles sit at home, every kennel action moves from the colour's first kennel cell to its start cell and carries no swap card. |
| `DogGame.InitialListAction` | server/py/dog.py:165-207 | In a new game the first (blue) player gets actions. There are none exactly when the first six cards of the deck hold no JKR, A or K. Every action moves from cell 64 to cell 0. |
| `HangmanGame.Hangman.constructor` | server/py/hangman.py:29-31 | A new game has no state. The word argument is ignored. |
| `HangmanGame.HangmanGameState.constructor` | server/py/hangman.py:20-24 | The state record holds the given word, phase, guesses and wrong guesses. |
| `HangmanGame.Hangman.GetState` | server/py/hangman.py:33-37 | Fails with `StateNotSet` exactly when no state is set. Otherwise returns the stored state object itself. |
| `HangmanGame.WrongGuesses` | server/py/hangman.py:41-43 | What `set_state` appends has at most one entry per guess. It is empty exactly when every raw guess occurs in the upper-cased word. Each entry is the upper-cased form of a guess that does not occur, and every guess that does not occur contributes its upper-cased form. |
| `HangmanGame.WrongGuessesAppend` | server/py/hangman.py:41-43 | The selection from a concatenation of guesses is the concatenation of the selections, so the wrong guesses keep guess order. |
| `HangmanGame.Hangman.SetState` | server/py/hangman.py:39-45 | Appends `WrongGuesses` of the given object's word and guesses to that object's wrong guesses, leaves its word, phase and guesses alone, and stores that same object. Called twice on one object, it appends the wrong guesses twice. |
| `HangmanGame.AfterGuess` | server/py/hangman.py:58-70 | The word is unchanged. The upper-cased letter is appended to the guesses. It is appended to the wrong guesses exactly when it does not occur in the upper-cased word. The phase is FINISHED exactly when every letter of the upper-cased word is among the guesses, or when the guess was wrong and there are now at least 8 wrong guesses. Otherwise the phase is RUNNING, whatever it was before. |
| `HangmanGame.Hangman.ApplyAction` | server/py/hangman.py:58-70 | The step-by-step in-place update of the stored state object gives exactly the state `AfterGuess` specifies. |
| `HangmanGame.PlayGuesses` | server/py/hangman.py:63 | A sequence of guesses never changes the word. It only appends the upper-cased letters to the guesses, in order, keeping every earlier guess. |
| `HangmanGame.PlayIncorrect` | server/py/hangman.py:67-68 | The wrong guesses recorded guess by guess are the old ones followed by `WrongGuesses` of the upper-cased letters. |
| `HangmanGame.SetStateAgreesWithPlay` | server/py/hangman.py:39-45 | For a game played from no guesses, `set_state` on the recorded guesses with an empty wrong-guess list rebuilds exactly the wrong guesses that `apply_action` recorded. |
| `HangmanGame.PlayAllWrong` | server/py/hangman.py:67-68 | Repeated guesses are not filtered: with only wrong letters, the wrong guesses grow by exactly one per letter, repeats included. |
| `HangmanGame.EightWrongGuessesFinish` | server/py/hangman.py:67-70 | A run of wrong letters that brings the wrong guesses to 8 or more leaves the game FINISHED. |
| `HangmanGame.RepeatedWrongGuessCountsAgain` | server/py/hangman.py:63-70 | Guessing the same wrong letter twice appends it twice to both lists. |
| `HangmanGame.RevealedStaysFinished` | server/py/hangman.py:64-65 | Once every letter of the word has been guessed, any further guess leaves the game FINISHED. |
| `HangmanGame.RightGuessReopens` | server/py/hangman.py:60-68 | For any state and any previous phase, a right guess that does not complete the word leaves the phase RUNNING; in particular a game lost on 8 wrong guesses is open again. |
| `HangmanGame.LostGameReopens` | server/py/hangman.py:60-61 | An example: the word "AB" lost with 8 wrong guesses is RUNNING again after the guess "a". |
| `HangmanGame.SetStateIsCaseSensitive` | server/py/hangman.py:42 | `set_state` tests the raw guess and `apply_action` the upper-cased one. A lower-case "a" against the word "a" is recorded as wrong by the first and as right by the second. |

## Left out

- `Dog.apply_action`, `Dog.get_player_view` and `Dog.print_state` are empty in `server/py/dog.py:161-163` and `209-215`. Moves, capture, seven-splits, jack swaps, joker substitution, rounds, card exchange, win detection and the player view are therefore not modelled.
- The test file calls functions that `server/py/dog.py` does not define. Those functions are not part of this model.
- `Hangman.get_list_action`, `Hangman.get_player_view` and `Hangman.print_state` are not modelled. The first two are stubs, and the third only prints.
- `server/py/battleship.py`: every game method is a stub, and the rest is console output.
- Randomness:
  - `random.shuffle` becomes the constructor's `deck` parameter, constrained to be a permutation of the deck.
  - The source shuffles the class-level `LIST_CARD` shared by all games. The model gives each game its own deck value, so that sharing is not captured.
  - `RandomPlayer.select_action` chooses at random and is not modelled.
- `Card.suit` and `Card.rank` are free strings in the source. The model restricts them to the four suits plus the empty suit, and to the thirteen ranks plus "JKR".
- `Marble.pos` is a string in the source and is modelled as a natural number. The source's `min` compares strings. This agrees with the numeric minimum on two-digit cells (`TextMinIsNumericMin`), and all kennel cells are two-digit. The two differ only on cells of different digit counts: for kennel-flagged marbles at cells 9 and 64 the source's `min("9", "64")` is "64", while the model's `MinOf` gives 9. Such a state can only arise through `set_state`.
- Pydantic validation and coercion are not modelled. This includes the string-to-int coercion of `pos_from`, the unknown `bool_game_finished` argument the constructor passes, and `model_copy`/`model_dump`.
- `DogGame.IfAllMarblesInKennel` requires a non-empty kennel list when a start card is held. In that case Python's `min` raises `ValueError`. Its only caller passes four marbles.
- `DogGame.Dog.GetListAction` requires a stored state and an active-player index Python can read. Otherwise the source raises `AttributeError` or `IndexError`.
- `DogGame.Dog.SetState` accepts a `GameState`, following the source's type annotation. Passing `None` is not modelled.
- `HangmanGame.Hangman.SetState` takes a non-null state object, following the source's type annotation. Passing `None` is not modelled; the source then raises `AttributeError` when it reads the guesses.
- `HangmanGame.Hangman.ApplyAction` requires a state to be set. Before `set_state`, the source raises `AttributeError`.
- `str.upper` is modelled on ASCII letters only. Other characters are left unchanged, so Unicode case mapping, including length-changing mappings, is not modelled.
- The Dog state is a value. In the source, `set_state` keeps the caller's `GameState` object and `get_state` returns that same object, so a caller who later changes it changes the game. That sharing with the caller of `get_state`/`set_state` is not modelled.
- Within one Hangman state, the `guesses` list and the `incorrect_guesses` list are modelled as separate values. Aliasing between those two lists is not modelled.
