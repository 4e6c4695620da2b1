/**
 * The lesson data of script.js: merging the loaded lesson files into one list
 * sorted by lesson number (loadData), and choosing the current words from the
 * lesson and page selection (updateCurrentWords).
 */
module Lessons {
  import opened Wrappers
  import opened Vocabulary

  const NoDataError: string := "No valid database files loaded."

  /** The lists of lessons of the usable files: those that loaded and have a `lessons` key, in file order. */
  function ValidLessons(results: seq<Option<Database>>): (lists: seq<seq<Lesson>>)
    ensures |lists| <= |results|
  {
    if results == [] then []
    else
      var rest := ValidLessons(results[..|results| - 1]);
      var last := results[|results| - 1];
      if last.Some? && last.value.lessons.Some? then rest + [last.value.lessons.value] else rest
  }

  predicate Usable(result: Option<Database>) {
    result.Some? && result.value.lessons.Some?
  }

  /** A file's lessons are kept exactly when the file is usable. */
  lemma {:induction false} ValidLessonsKeepsUsable(results: seq<Option<Database>>)
    ensures forall i :: 0 <= i < |results| && Usable(results[i]) ==> results[i].value.lessons.value in ValidLessons(results)
    ensures forall ls :: ls in ValidLessons(results) ==> exists i :: 0 <= i < |results| && Usable(results[i]) && results[i].value.lessons.value == ls
    ensures ValidLessons(results) == [] <==> forall i :: 0 <= i < |results| ==> !Usable(results[i])
  {
    if results != [] {
      var front := results[..|results| - 1];
      ValidLessonsKeepsUsable(front);
      assert forall i :: 0 <= i < |front| ==> front[i] == results[i];
    }
  }

  /** The lists joined end to end, in order. */
  function Concat<T>(lists: seq<seq<T>>): (all: seq<T>) {
    if lists == [] then [] else Concat(lists[..|lists| - 1]) + lists[|lists| - 1]
  }

  /** An element is in the joined list exactly when it is in one of the lists. */
  lemma {:induction false} ConcatMembership<T>(lists: seq<seq<T>>, x: T)
    ensures x in Concat(lists) <==> exists k :: 0 <= k < |lists| && x in lists[k]
  {
    if lists != [] {
      var front := lists[..|lists| - 1];
      ConcatMembership(front, x);
      assert forall k :: 0 <= k < |front| ==> front[k] == lists[k];
    }
  }

  /** The joined list holds every element of every list, each as often as the lists together do. */
  lemma {:induction false} ConcatCounts<T>(lists: seq<seq<T>>, x: T)
    ensures multiset(Concat(lists))[x] == Count(lists, x)
  {
    if lists != [] {
      ConcatCounts(lists[..|lists| - 1], x);
    }
  }

  /** How often x occurs in the lists together. */
  ghost function Count<T>(lists: seq<seq<T>>, x: T): nat {
    if lists == [] then 0 else Count(lists[..|lists| - 1], x) + multiset(lists[|lists| - 1])[x]
  }

  /** The sort key `a.number || 0`: a missing lesson number counts as 0. */
  function NumberKey(lesson: Lesson): int {
    lesson.number.GetOr(0)
  }

  predicate SortedByNumber(lessons: seq<Lesson>) {
    forall i, j :: 0 <= i < j < |lessons| ==> NumberKey(lessons[i]) <= NumberKey(lessons[j])
  }

  /** `allLessons.sort(...)`: insertion sort by lesson number, in place. */
  method SortByNumber(a: array<Lesson>)
    modifies a
    ensures SortedByNumber(a[..])
    ensures multiset(a[..]) == old(multiset(a[..]))
  {
    var i := 0;
    while i < a.Length
      invariant 0 <= i <= a.Length
      invariant SortedByNumber(a[..i])
      invariant multiset(a[..]) == old(multiset(a[..]))
    {
      InsertLast(a, i);
      i := i + 1;
    }
    assert a[..a.Length] == a[..];
  }

  /** Moves `a[i]` left past every larger lesson number, so that `a[..i + 1]` is sorted. */
  method InsertLast(a: array<Lesson>, i: nat)
    requires i < a.Length && SortedByNumber(a[..i])
    modifies a
    ensures SortedByNumber(a[..i + 1])
    ensures a[i + 1..] == old(a[i + 1..])
    ensures multiset(a[..]) == old(multiset(a[..]))
  {
    var j := i;
    while j > 0 && NumberKey(a[j - 1]) > NumberKey(a[j])
      invariant 0 <= j <= i
      invariant forall p, q :: 0 <= p < q <= i && p != j && q != j ==> NumberKey(a[p]) <= NumberKey(a[q])
      invariant forall q :: j < q <= i ==> NumberKey(a[j]) <= NumberKey(a[q])
      invariant a[i + 1..] == old(a[i + 1..])
      invariant multiset(a[..]) == old(multiset(a[..]))
    {
      SwapAdjacent(a, j);
      j := j - 1;
    }
  }

  /** Exchanges `a[j - 1]` and `a[j]`. */
  method SwapAdjacent(a: array<Lesson>, j: nat)
    requires 0 < j < a.Length
    modifies a
    ensures a[j - 1] == old(a[j]) && a[j] == old(a[j - 1])
    ensures forall k :: 0 <= k < a.Length && k != j - 1 && k != j ==> a[k] == old(a[k])
    ensures multiset(a[..]) == old(multiset(a[..]))
  {
    a[j - 1], a[j] := a[j], a[j - 1];
  }

  /**
   * The merge of loadData: keep the usable files, join their lessons in file
   * order, and sort them by lesson number; fail when no file is usable.
   */
  method MergeLessons(results: seq<Option<Database>>) returns (merged: Result<seq<Lesson>, string>)
    ensures merged.Failure? <==> forall i :: 0 <= i < |results| ==> !Usable(results[i])
    ensures merged.Failure? ==> merged.error == NoDataError
    ensures merged.Success? ==> SortedByNumber(merged.value)
    ensures merged.Success? ==> multiset(merged.value) == multiset(Concat(ValidLessons(results)))
  {
    var valid := ValidLessons(results);
    ValidLessonsKeepsUsable(results);
    if |valid| == 0 {
      return Failure(NoDataError);
    }
    var all: seq<Lesson> := [];
    for k := 0 to |valid|
      invariant all == Concat(valid[..k])
    {
      assert valid[..k + 1][..k] == valid[..k];
      all := all + valid[k];
    }
    assert valid[..|valid|] == valid;
    var a := new Lesson[|all|](i requires 0 <= i < |all| => all[i]);
    assert a[..] == all;
    SortByNumber(a);
    merged := Success(a[..]);
  }

  /** A lesson is in the merged list exactly when some usable file lists it. */
  lemma MergedMembership(results: seq<Option<Database>>, merged: seq<Lesson>, lesson: Lesson)
    requires multiset(merged) == multiset(Concat(ValidLessons(results)))
    ensures lesson in merged <==>
      exists i :: 0 <= i < |results| && Usable(results[i]) && lesson in results[i].value.lessons.value
  {
    var valid := ValidLessons(results);
    assert lesson in merged <==> lesson in multiset(Concat(valid));
    ConcatMembership(valid, lesson);
    ValidLessonsKeepsUsable(results);
    if lesson in merged {
      var k :| 0 <= k < |valid| && lesson in valid[k];
      assert valid[k] in valid;
    }
  }

  /** The first lesson with the chosen number (`lessons.find(l => l.number == n)`). */
  function FindLesson(lessons: seq<Lesson>, n: int): (found: Option<Lesson>)
    ensures found.Some? ==> found.value in lessons && found.value.number == Some(n)
    ensures found.None? <==> forall i :: 0 <= i < |lessons| ==> lessons[i].number != Some(n)
  {
    if lessons == [] then None
    else if lessons[0].number == Some(n) then Some(lessons[0])
    else FindLesson(lessons[1..], n)
  }

  /** The first lesson with the chosen number is returned, not a later one. */
  lemma {:induction false} FindLessonFirst(lessons: seq<Lesson>, n: int, i: nat)
    requires i < |lessons| && lessons[i].number == Some(n)
    requires forall j :: 0 <= j < i ==> lessons[j].number != Some(n)
    ensures FindLesson(lessons, n) == Some(lessons[i])
  {
    if i > 0 {
      FindLessonFirst(lessons[1..], n, i - 1);
    }
  }

  /** The page at `index` of the page list, or none when there is no such page. */
  function PageAt(lesson: Lesson, index: nat): (page: Option<Page>)
    ensures page.Some? <==> lesson.pages.Some? && index < |lesson.pages.value|
    ensures page.Some? ==> page.value == lesson.pages.value[index]
  {
    if lesson.pages.Some? && index < |lesson.pages.value| then Some(lesson.pages.value[index]) else None
  }

  /** A page's words, `p.words || []`. */
  function PageWords(page: Page): seq<Word> {
    page.words.GetOr([])
  }

  /** The words of every page, in page order (`pages.flatMap(p => p.words || [])`). */
  function AllPageWords(pages: seq<Page>): seq<Word> {
    Concat(seq(|pages|, k requires 0 <= k < |pages| => PageWords(pages[k])))
  }

  /** A word is among all pages' words exactly when some page with a word list has it. */
  lemma AllPageWordsMembership(pages: seq<Page>, w: Word)
    ensures w in AllPageWords(pages) <==> exists k :: 0 <= k < |pages| && pages[k].words.Some? && w in pages[k].words.value
  {
    var lists := seq(|pages|, k requires 0 <= k < |pages| => PageWords(pages[k]));
    ConcatMembership(lists, w);
    if w in AllPageWords(pages) {
      var k :| 0 <= k < |lists| && w in lists[k];
      assert pages[k].words.Some?;
    }
    forall k | 0 <= k < |pages| && pages[k].words.Some? && w in pages[k].words.value
      ensures w in AllPageWords(pages)
    {
      assert w in lists[k];
    }
  }

  /** Adding a page at the end adds its words at the end. */
  lemma AllPageWordsAppend(pages: seq<Page>, page: Page)
    ensures AllPageWords(pages + [page]) == AllPageWords(pages) + PageWords(page)
  {
    var lists := seq(|pages + [page]|, k requires 0 <= k < |pages + [page]| => PageWords((pages + [page])[k]));
    assert lists[..|pages|] == seq(|pages|, k requires 0 <= k < |pages| => PageWords(pages[k]));
  }

  /**
   * The current words, as updateCurrentWords is evidently meant to choose them:
   * none without a lesson, the chosen page's words, or the words of every
   * page, a lesson without pages contributing none.
   */
  function SelectWords(lesson: Option<Lesson>, page: Option<Page>): (words: seq<Word>)
    ensures lesson.None? ==> words == []
    ensures lesson.Some? && page.Some? ==> words == PageWords(page.value)
    ensures lesson.Some? && page.None? && lesson.value.pages.None? ==> words == []
    ensures lesson.Some? && page.None? && lesson.value.pages.Some? ==> words == AllPageWords(lesson.value.pages.value)
  {
    if lesson.None? then []
    else if page.Some? then PageWords(page.value)
    else AllPageWords(lesson.value.pages.GetOr([]))
  }

  /**
   * updateCurrentWords as written: the "all pages" branch reads
   * `currentLesson.pages.flatMap`, which throws a TypeError when the lesson
   * has no `pages` key.
   */
  function SelectWordsAsWritten(lesson: Option<Lesson>, page: Option<Page>): Result<seq<Word>, string> {
    if lesson.None? then Success([])
    else if page.Some? then Success(PageWords(page.value))
    else if lesson.value.pages.None? then Failure("TypeError")
    else Success(AllPageWords(lesson.value.pages.value))
  }

  /** The code as written fails exactly on a lesson without pages, and agrees with SelectWords elsewhere. */
  lemma SelectWordsAsWrittenFailsWithoutPages(lesson: Option<Lesson>, page: Option<Page>)
    ensures SelectWordsAsWritten(lesson, page).Failure? <==> lesson.Some? && page.None? && lesson.value.pages.None?
    ensures SelectWordsAsWritten(lesson, page).Success? ==> SelectWordsAsWritten(lesson, page).value == SelectWords(lesson, page)
  {
  }

  /** The input that shows it: a lesson file entry `{"number": 3}` without pages, chosen with "all pages". */
  lemma PagelessLessonThrows()
    ensures SelectWordsAsWritten(Some(Lesson(Some(3), None)), None).Failure?
    ensures SelectWords(Some(Lesson(Some(3), None)), None) == []
  {
  }
}
