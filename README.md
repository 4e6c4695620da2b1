# LernDeutsch vocabulary trainer — a Dafny model

LernDeutsch is a browser app for learning German vocabulary with Czech
translations. It loads lesson files, lets the user pick a lesson and a page,
lists the words of the selection, and offers four games on those words:
flashcards, a multiple-choice quiz, a memory board and a typing drill.

This project models the logic behind that (`script.js` and `games.js`):

- `wrappers.dfy` — `Option` and `Result`.
- `vocabulary.dfy` — words, pages, lessons and lesson files, with JavaScript
  truthiness of optional fields. It also holds the defaults the word list shows
  for a missing field (`???`, no plural line, no example).
- `lessons.dfy` — the merge in `loadData`:
  - keep the files that loaded and have `lessons`;
  - join their lessons in file order;
  - sort the result in place by `number || 0`;
  - fail with "No valid database files loaded." when no file is usable.

  It also holds the lesson lookup and the word selection of
  `updateCurrentWords`.
- `app.dfy` — the `App` object's state (`data.lessons`, current lesson, page,
  words) and its lesson and page change handlers, which hand the words to the
  game host.
- `game_host.dfy` — `GameManager`: its word list, the four-word minimum for
  every game but the flashcards, and the running game.
- `shuffle.dfy` — every `sort(() => Math.random() - 0.5)` shuffle, as a
  permutation vector passed in by the caller, with the lemmas that a
  permutation keeps contents and distinctness.
- `flashcards.dfy`, `quiz.dfy`, `memory.dfy`, `typing.dfy` — the four games.
  Each is a class. Its fields are the source's fields, plus the quiz's current
  question (`target`, `options`) and whether its buttons are disabled
  (`answered`), which the source keeps in locals and in the page.
- `text.dfy` — JavaScript `trim` and `toLowerCase`, as the typing game uses
  them.

Randomness is a parameter everywhere:
- a shuffle is a permutation vector;
- `Math.floor(Math.random() * n)` is an index;
- the quiz's distractor loop reads a finite stream of drawn indices.

The quiz compares words by reference, so its entries are positions in the word
pool. The memory game's cards are positions on the board, and two cards match
when their `id` (the German word) is equal. Each `setTimeout` continuation is a
method of its own that the caller invokes later:
- `MemoryGame.ResolveMismatch`;
- `QuizGame.NextQuestion`;
- `TypingGame.NextWord`.

## Model

| member | source | states |
|---|---|---|
| `Shuffle.Permute` | games.js:86-88 | the shuffled list has the same length, and position i holds the element the permutation names |
| `Shuffle.PermutePreservesMultiset` | games.js:86-88 | a shuffle keeps every element as often as before: the result is a permutation of the input |
| `GameHost.KindOf` | games.js:57-73 | each of the four game names selects its own game, and no other name selects one |
| `GameHost.GameManager.constructor` | games.js:6-8 | the host starts with no words and no running game |
| `GameHost.GameManager.SetWords` | games.js:32-36 | the word list is replaced, and a running game is left as it is |
| `GameHost.GameManager.StartGame` | games.js:38-73 | a game starts exactly when four words are loaded or the game is the flashcards; a refused start changes nothing and builds no session; a started game builds the session its name selects, which is never a four-word game on fewer than four words |
| `GameHost.GameManager.StopGame` | games.js:50-55 | no game runs afterwards |
| `Flashcards.CursorStaysInDeck` | games.js:156-172 | next and prev keep the cursor on a card of the deck |
| `Flashcards.NextTimesAdvances` | games.js:156-159 | before the end of the deck, k presses of next move exactly k cards forward |
| `Flashcards.NextTimesCompose` | games.js:156-165 | a + b presses of next are a presses followed by b presses |
| `Flashcards.FullRoundReturns` | games.js:156-165 | one next per card, from any card, comes back to that card: the deck loops |
| `Flashcards.PrevUndoesNext` | games.js:156-172 | prev undoes a next that did not wrap, and next undoes a prev that moved |
| `Flashcards.FlashcardGame.constructor` | games.js:77-88 | the deck is a permutation of the words, and play starts on the first card, front side up |
| `Flashcards.FlashcardGame.Shown` | games.js:142-153 | a non-empty deck shows the current card's German form on the front, its Czech form and its example (or nothing) on the back, and the counter "position / total", the position between 1 and the deck size; an empty deck shows nothing |
| `Flashcards.FlashcardGame.Flip` | games.js:137-140 | the card turns over |
| `Flashcards.FlashcardGame.UpdateCard` | games.js:142-145 | the card is shown front side up |
| `Flashcards.FlashcardGame.Next` | games.js:156-165 | the cursor moves one card forward, wrapping from the last to the first, and stays on the deck; the card is shown front side up |
| `Flashcards.FlashcardGame.Prev` | games.js:167-172 | the cursor moves one card back, front side up; on the first card nothing changes, not even the flip |
| `Flashcards.FlashcardGame.HandleKey` | games.js:130-135 | the right arrow is next, front side up; the left arrow is prev, front side up when the cursor moves and the flip kept on the first card; space and Enter flip; every other key changes nothing |
| `Quiz.GatherSound` | games.js:190-197 | the distractors the loop collects are distinct, never the target, and within the pool |
| `Quiz.QuizNeedsFourWords` | games.js:190-197 | the distractor loop can only finish when the pool holds at least four words |
| `Quiz.FourWordsSuffice` | games.js:190-197 | with four or more words, whatever the target, some draws let the loop finish |
| `Quiz.PickDistractors` | games.js:190-197 | the loop returns three distinct positions in the pool other than the target, the ones the draws give |
| `Quiz.OptionsHaveOneAnswer` | games.js:199-215 | the four options are the distractors and the target, shuffled, and distinct; exactly one button is marked correct |
| `Quiz.FourWordPoolUsesEveryWord` | games.js:186-200 | in a pool of exactly four words, every word is among the options |
| `Quiz.QuizGame.constructor` | games.js:176-183 | a game starts with score 0 and its first question asked (question count 1) |
| `Quiz.QuizGame.NextQuestion` | games.js:185-203 | the question count grows by one; the new question holds the chosen target once among four distinct options |
| `Quiz.QuizGame.HandleAnswer` | games.js:225-239 | the answer is correct exactly when the clicked option is the target and no answer was given yet; the score grows by one exactly then; afterwards the buttons are disabled |
| `Memory.DealLayout` | games.js:250-253 | word i yields its German card at position 2i and its Czech card at 2i + 1, both with the German word as id |
| `Memory.DealIdsTwice` | games.js:250-253 | each German word is the id of exactly two cards per word that carries it |
| `Memory.DealIdsFromWords` | games.js:250-253 | every card's id is the German form of a chosen word |
| `Memory.IdsOfPermute` | games.js:255 | shuffling the cards shuffles their ids the same way |
| `Memory.BoardWords` | games.js:246 | the board uses min(8, pool size) words, taken from the pool without repetition (no word more often than the pool holds it) |
| `Memory.BuildPairs` | games.js:250-253 | the loop that pushes two cards per word builds exactly the dealt pairs |
| `Memory.BoardHasPairs` | games.js:243-255 | when the German words are distinct, a board has 2 * min(8, pool size) cards, is a permutation of the pairs, gives every chosen word exactly two cards, and has no card from a word that was not chosen |
| `Memory.FullyMatchedBoard` | games.js:310-312 | when the matched list is as long as the board, every card is matched |
| `Memory.MemoryGame.constructor` | games.js:243-262 | the board is the shuffled pairs of the chosen words, with no card face up or matched, and unlocked |
| `Memory.MemoryGame.HandleCardClick` | games.js:280-292 | a click while locked, on a matched card, or on a face-up card changes nothing; otherwise the card turns face up, and a second card is checked; matches are never undone; once the board is fully matched, every click is ignored |
| `Memory.MemoryGame.CheckMatch` | games.js:294-316 | two cards with the same id are matched and the lock is released, with victory exactly when every card is matched; different ids stay face up and locked |
| `Memory.MemoryGame.ResolveMismatch` | games.js:317-324 | both cards turn face down and the lock is released; the matched cards stay |
| `Text.TrimStart` | games.js:366 | drops exactly the leading whitespace: a suffix whose dropped prefix is all whitespace and which does not start with whitespace |
| `Text.TrimEnd` | games.js:366 | drops exactly the trailing whitespace: a prefix whose dropped suffix is all whitespace and which does not end with whitespace |
| `Text.Trim` | games.js:366 | the result neither starts nor ends with whitespace |
| `Text.TrimStartPadding` | games.js:366 | trimming the start removes exactly a whitespace padding in front of a word that does not start with whitespace |
| `Text.TrimEndPadding` | games.js:366 | trimming the end removes exactly a whitespace padding after a word that does not end with whitespace |
| `Text.TrimPadding` | games.js:366 | trim removes whitespace on both sides of a trimmed word, and nothing else |
| `Text.Lower` | games.js:367 | lowercasing keeps the length |
| `Text.LowerKeepsSpace` | games.js:367 | lowercasing neither creates nor removes whitespace |
| `Typing.LowerKeepsTrimmed` | games.js:366-367 | a string is trimmed exactly when its lowercase form is |
| `Typing.AcceptsCaseAndPadding` | games.js:365-367 | an input that differs from a trimmed German word only in case and surrounding whitespace is accepted |
| `Typing.PaddedTargetNeverAccepted` | games.js:365-367 | a German word with whitespace at either end is never accepted, whatever is typed |
| `Typing.Hint` | games.js:382-385 | the hint is the first three characters of the word, or the whole word if shorter, followed by "..." |
| `Typing.ShortWordHintShowsAll` | games.js:383 | for a word of three characters or fewer, the hint is the whole word and "..." |
| `Typing.TrimKeepsFinalStop` | games.js:366 | trimming keeps a full stop at the end of the input |
| `Typing.LowerKeepsStops` | games.js:367 | lowercasing neither creates nor removes a full stop |
| `Typing.HintIsNotAnAnswer` | games.js:365-385 | submitting the hint is never accepted for a German word without a full stop |
| `Typing.TypingGame.constructor` | games.js:330-337 | the game starts on the chosen word with a streak of 0 |
| `Typing.TypingGame.NextWord` | games.js:339-344 | the current word becomes the chosen word of the pool |
| `Typing.TypingGame.Check` | games.js:365-375 | the answer is correct exactly when the trimmed input equals the German word ignoring case; a correct answer extends the streak by one, a wrong one resets it to 0 |
| `Typing.TypingGame.HintText` | games.js:382-385 | the hint button fills in the first three characters of the current German word (the whole word if shorter) followed by "..." |
| `Vocabulary.OrMissing` | script.js:213-214 | a missing German or Czech form is shown as "???", a present one unchanged, and the result is never empty |
| `Vocabulary.PluralLabel` | script.js:216 | the plural line is empty exactly when no plural is present |
| `Vocabulary.PluralLabelRoundTrip` | script.js:216 | the plural can be read back from its "(Pl. …)" line |
| `Vocabulary.CardOf` | script.js:211-225 | a card shows a present German or Czech form verbatim and "???" for a missing one, keeps the plural recoverable, and shows the example verbatim exactly when the word has one |
| `Vocabulary.RenderWords` | script.js:198-228 | the placeholder is shown exactly when there are no words; otherwise there is one card per word, in order |
| `Lessons.ValidLessons` | script.js:53 | there are no more lesson lists than files |
| `Lessons.ValidLessonsKeepsUsable` | script.js:53-56 | a file's lessons are kept exactly when the file loaded and has lessons; nothing is kept exactly when no file is usable |
| `Lessons.ConcatMembership` | script.js:59-62 | a lesson is in the joined list exactly when it is in one of the files' lists |
| `Lessons.ConcatCounts` | script.js:59-62 | the joined list holds each lesson as often as the files do together |
| `Lessons.SortByNumber` | script.js:64-65 | the array ends sorted by lesson number, a missing number counting as 0, and is a permutation of what it held |
| `Lessons.InsertLast` | script.js:64-65 | one insertion step extends the sorted prefix by one element, leaves the rest of the array untouched, and keeps the contents |
| `Lessons.SwapAdjacent` | script.js:64-65 | two neighbours are exchanged and nothing else changes |
| `Lessons.MergeLessons` | script.js:53-67 | the merge fails with "No valid database files loaded." exactly when no file is usable; otherwise the result is sorted by lesson number and is a permutation of the usable files' lessons |
| `Lessons.MergedMembership` | script.js:53-67 | a lesson is in the merged list exactly when some usable file lists it |
| `Lessons.FindLesson` | script.js:128 | the lesson found carries the chosen number; none is found exactly when no lesson has that number |
| `Lessons.FindLessonFirst` | script.js:128 | the first lesson with the chosen number is returned |
| `Lessons.PageAt` | script.js:145 | a page is found exactly when the lesson has pages and the index is within them, and it is the page at that index |
| `Lessons.AllPageWordsMembership` | script.js:182 | a word is among all pages' words exactly when some page with a word list has it |
| `Lessons.AllPageWordsAppend` | script.js:182 | a page added at the end adds its words at the end, in order |
| `Lessons.SelectWords` | script.js:175-183 | no lesson gives no words, a chosen page gives its words, all pages give every page's words in page order, and a lesson without pages gives none (corrected) |
| `Lessons.SelectWordsAsWrittenFailsWithoutPages` | script.js:175-183 | the code as written fails exactly for "all pages" of a lesson without pages, and agrees with the corrected selection everywhere else |
| `Lessons.PagelessLessonThrows` | script.js:182 | a lesson `{"number": 3}` chosen with all pages throws as written, and gives no words when corrected |
| `Application.App.constructor` | script.js:6-10 | the app starts with no lessons, no selection and no words |
| `Application.App.LoadData` | script.js:40-81 | a load fails with the error message exactly when no file is usable, and then the lessons are unchanged; otherwise the lessons are the usable files' lessons, sorted by number |
| `Application.App.UpdateCurrentWords` | script.js:175-192 | the current words are the selection's words, and the game host receives them (corrected: a lesson without pages gives no words instead of throwing) |
| `Application.App.OnLessonChange` | script.js:125-139 | choosing a lesson selects the first lesson with that number and resets the page to all pages; clearing empties the words; in both cases the game host gets the shown words (corrected) |
| `Application.App.OnLessonChangeAsWritten` | script.js:125-139 | as written: clearing the lesson empties the words and leaves the game host's words unchanged; choosing a lesson uses the corrected word selection |
| `Application.App.OnPageChange` | script.js:142-150 | a page index selects that page of the current lesson, and anything else selects all pages; the words are recomputed and handed to the game host (corrected word selection) |
| `Application.ClearingLessonLeavesGamesStale` | script.js:132-137 | load one lesson with the word "Hund", choose it, then clear the lesson: the word list is empty, but the game host still holds "Hund" |

## Left out

- Rendering and the DOM are not modelled. This covers the HTML templates, CSS classes, focus, alerts and the view switcher (`switchView`). The model keeps only the state they display.
- `fetch` and `Promise.all` are not modelled. `LoadData` takes each file's parsed content, or none for a file that failed to load or parse.
- Timers are not modelled as timers. Each `setTimeout` continuation is a separate method the caller invokes, so nothing bounds when it runs. Other calls may come in between, as they can in the source: a memory click between `CheckMatch` and `ResolveMismatch` is ignored because of the lock, and `Check` may be called again before `NextWord`.
- A flashcard keydown listener that outlives its game is not modelled.
- The distribution of `Math.random()` is not modelled, including the bias of shuffling with a random comparator. Every shuffle is some permutation supplied by the caller.
- The quiz's distractor loop is modelled over a finite stream of draws that lets it finish (`DrawsSuffice`). With fewer than four words, the loop in the source never ends. `Quiz.QuizNeedsFourWords` proves that no stream of draws finishes it then.
- `updateStats`, the word count badge, is not modelled. It only displays `currentWords.length`.
- The lesson select's option list (`populateLessonSelect`) and the page select's option list (`populatePageSelect`) are not modelled. The handlers take the chosen lesson number, or the chosen page index, directly.
- The lesson lookup uses JavaScript's loose `==` between the option's text value and `lesson.number`. The model compares integer lesson numbers, so string/number coercions are not modelled.
- Non-conforming JSON is not modelled: a `lessons` that is not an array, or word fields that are not strings. The model represents absent keys as none, except `german` and `czech`.
- A missing `german` or `czech` is modelled as the empty string. That matches the source only in the word list, where `||` treats both alike. Elsewhere the source differs:
  - the typing game throws a TypeError on a missing `german` (`toLowerCase` at games.js:367, `substring` at games.js:383), while the model's `Typing.TypingGame.Check` accepts a blank answer for it;
  - the memory game's `===` (games.js:302) tells `undefined` from `""`, while the model gives both the id `""`.

  The games are thus faithful only for words that have a `german` form.
- The word selection in `Application.App.UpdateCurrentWords`, `Application.App.OnPageChange` and the choosing branch of `Application.App.OnLessonChangeAsWritten` is the corrected `Lessons.SelectWords`. For "all pages" of a lesson without `pages`, the source throws inside `updateCurrentWords` (script.js:182) and leaves the current words and the game host's words as they were. The model sets both to the empty list. `Lessons.SelectWordsAsWritten` models the throw.
- `Text.Lower` only lowercases ASCII and Latin-1 (À–Þ except ×), not the full Unicode mapping of `toLowerCase`. Strings are sequences of characters, not UTF-16 code units.
- `Text.Lower`: its contract states only the length; the case-insensitive acceptance is stated through `Typing.AcceptsCaseAndPadding` and `Typing.LowerKeepsTrimmed`.
- `Lessons.MergeLessons` does not state the stability of the sort (lessons with equal numbers keep their file order). The insertion sort is stable, but the contract does not say so.
- `Lessons.ValidLessons` only states a bound on its own. The contents of the kept lists are stated by `Lessons.ValidLessonsKeepsUsable`.
- `Flashcards.FlashcardGame.Shown` returns none for an empty deck. In the source, the delayed update reads `word.german` of an undefined entry and throws in the timer; only the flashcards can be started with an empty list.
- `Application.App.OnPageChange` treats a page index on a lesson without pages as "all pages". The source would throw there, but its page list offers no index for such a lesson.
- Before a successful load, the model's lesson list is empty. The source's `data` is null until then, and its handlers would throw, but the lesson list offers no choice before a load.
- Memory cards carry their side (German or Czech) for reading; only `id` and `text` affect the game.

## Findings

| source | as written | input that shows it | evidently intended | confidence | as-written member | corrected member |
|---|---|---|---|---|---|---|
| script.js:182 | for "all pages", `updateCurrentWords` calls `currentLesson.pages.flatMap`, which throws a TypeError when the lesson has no `pages` key (`populatePageSelect` at script.js:105 does guard against that case) | a lesson file entry `{"number": 3}` without pages, chosen in the lesson list | a lesson without pages has no words, and the word list shows the placeholder | not executed | `Lessons.PagelessLessonThrows` | `Lessons.SelectWords` |
| script.js:132-137 | clearing the lesson list sets `currentWords = []` and re-renders, but does not call `GameManager.setWords` | load one lesson with one word, choose it, then choose "Select Lesson..." again | the game host always plays the words the word list shows | not executed | `Application.ClearingLessonLeavesGamesStale` | `Application.App.OnLessonChange` |
