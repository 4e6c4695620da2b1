/**
 * The application state of script.js App: the loaded lessons, the lesson and
 * page the user chose, and the current words, which are handed on to the game
 * host whenever they are recomputed.
 */
module Application {
  import opened Wrappers
  import opened Vocabulary
  import opened Lessons
  import opened GameHost

  class App {
    /** The merged lessons (`data.lessons`); empty until a load succeeds. */
    var lessons: seq<Lesson>
    var currentLesson: Option<Lesson>
    /** The chosen page, or none for "all pages". */
    var currentPage: Option<Page>
    var currentWords: seq<Word>
    /** The game host (`window.GameManager`). */
    const games: GameManager

    /** The game host plays the words the word list shows. */
    ghost predicate Synced()
      reads this, games
    {
      games.words == currentWords
    }

    constructor (host: GameManager)
      ensures games == host
      ensures lessons == [] && currentLesson == None && currentPage == None && currentWords == []
    {
      games := host;
      lessons := [];
      currentLesson := None;
      currentPage := None;
      currentWords := [];
    }

    /**
     * The merge of loadData over the parsed files (`null` for a file that
     * failed to load). On failure the error is reported and nothing changes.
     */
    method LoadData(results: seq<Option<Database>>) returns (error: Option<string>)
      modifies this`lessons
      ensures error.Some? <==> forall i :: 0 <= i < |results| ==> !Usable(results[i])
      ensures error.Some? ==> error.value == NoDataError && lessons == old(lessons)
      ensures error.None? ==> SortedByNumber(lessons)
      ensures error.None? ==> multiset(lessons) == multiset(Concat(ValidLessons(results)))
    {
      var merged := MergeLessons(results);
      match merged
      case Failure(e) =>
        error := Some(e);
      case Success(all) =>
        lessons := all;
        error := None;
    }

    /** Recomputes the current words from the selection and hands them to the game host. */
    method UpdateCurrentWords()
      modifies this`currentWords, games`words
      ensures currentWords == SelectWords(currentLesson, currentPage)
      ensures Synced()
      ensures games.activeGame == old(games.activeGame)
    {
      currentWords := SelectWords(currentLesson, currentPage);
      games.SetWords(currentWords);
    }

    /**
     * The lesson list's change handler, as evidently intended: choosing a
     * lesson resets the page to "all pages"; clearing the lesson empties the
     * current words, and in both cases the game host is told.
     */
    method OnLessonChange(selection: Option<int>)
      modifies this`currentLesson, this`currentPage, this`currentWords, games`words
      ensures selection.Some? ==> currentLesson == FindLesson(lessons, selection.value) && currentPage == None
      ensures selection.None? ==> currentLesson == None && currentPage == old(currentPage) && currentWords == []
      ensures currentWords == SelectWords(currentLesson, currentPage)
      ensures Synced()
    {
      if selection.Some? {
        currentLesson := FindLesson(lessons, selection.value);
        currentPage := None;
        UpdateCurrentWords();
      } else {
        currentLesson := None;
        UpdateCurrentWords();
      }
    }

    /**
     * The lesson list's change handler as written: clearing the lesson empties
     * the current words without telling the game host.
     */
    method OnLessonChangeAsWritten(selection: Option<int>)
      modifies this`currentLesson, this`currentPage, this`currentWords, games`words
      ensures selection.Some? ==> currentLesson == FindLesson(lessons, selection.value) && currentPage == None
      ensures selection.Some? ==> currentWords == SelectWords(currentLesson, currentPage) && Synced()
      ensures selection.None? ==> currentLesson == None && currentPage == old(currentPage) && currentWords == []
      ensures selection.None? ==> games.words == old(games.words)
    {
      if selection.Some? {
        currentLesson := FindLesson(lessons, selection.value);
        currentPage := None;
        UpdateCurrentWords();
      } else {
        currentLesson := None;
        currentWords := [];
      }
    }

    /** The page list's change handler: a page of the current lesson, or "all pages". */
    method OnPageChange(selection: Option<nat>)
      modifies this`currentPage, this`currentWords, games`words
      ensures currentPage == if selection.Some? && currentLesson.Some? then PageAt(currentLesson.value, selection.value) else None
      ensures currentWords == SelectWords(currentLesson, currentPage)
      ensures Synced()
    {
      if selection.Some? && currentLesson.Some? {
        currentPage := PageAt(currentLesson.value, selection.value);
      } else {
        currentPage := None;
      }
      UpdateCurrentWords();
    }
  }

  lemma SingleLessonFile(lesson: Lesson)
    ensures Concat(ValidLessons([Some(Database(Some([lesson])))])) == [lesson]
  {
    var results := [Some(Database(Some([lesson])))];
    assert results[..0] == [];
    assert ValidLessons(results) == [[lesson]];
    assert [[lesson]][..0] == [];
  }

  lemma SingletonList(s: seq<Lesson>, x: Lesson)
    requires multiset(s) == multiset([x])
    ensures s == [x]
  {
    assert |s| == 1;
    assert s[0] in multiset(s);
  }

  lemma SinglePageWords(page: Page)
    ensures AllPageWords([page]) == PageWords(page)
  {
    AllPageWordsAppend([], page);
    assert [] + [page] == [page];
  }

  /**
   * The input that shows the stale game words: load one lesson with one word,
   * choose it, then clear the lesson list. The word list is empty, but the
   * game host still plays the lesson's word.
   */
  method ClearingLessonLeavesGamesStale() returns (shown: seq<Word>, forGames: seq<Word>)
    ensures shown == []
    ensures forGames == [Word("Hund", "pes", None, None)]
  {
    var host := new GameManager();
    var app := new App(host);
    var w := Word("Hund", "pes", None, None);
    var page := Page(Some(1), Some([w]));
    var lesson := Lesson(Some(1), Some([page]));
    var results := [Some(Database(Some([lesson])))];
    SingleLessonFile(lesson);
    assert Usable(results[0]);
    var error := app.LoadData(results);
    assert error.None?;
    SingletonList(app.lessons, lesson);
    assert FindLesson(app.lessons, 1) == Some(lesson);
    SinglePageWords(page);
    assert SelectWords(Some(lesson), None) == [w];
    app.OnLessonChangeAsWritten(Some(1));
    assert host.words == [w];
    app.OnLessonChangeAsWritten(None);
    shown, forGames := app.currentWords, host.words;
  }
}
