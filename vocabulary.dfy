/**
 * The vocabulary data of LernDeutsch as the lesson files hold it, and the
 * defaults the word list uses when a field is missing (script.js renderWords).
 */
module Vocabulary {
  import opened Wrappers

  /**
   * One vocabulary entry. `german` and `czech` are required by the data format;
   * a missing one is modelled as the empty string, which JavaScript's `||`
   * treats exactly like a missing field. `example` and `plural` are optional.
   */
  datatype Word = Word(german: string, czech: string, example: Option<string>, plural: Option<string>)

  /** One page of a lesson; `words` is absent when the page has no such key. */
  datatype Page = Page(number: Option<int>, words: Option<seq<Word>>)

  /** One lesson; `number` orders the lessons and `pages` may be absent. */
  datatype Lesson = Lesson(number: Option<int>, pages: Option<seq<Page>>)

  /** One parsed lesson file; `lessons` is absent when the file lacks that key. */
  datatype Database = Database(lessons: Option<seq<Lesson>>)

  /** JavaScript truthiness of an optional string: present and not empty. */
  predicate Present(field: Option<string>) {
    field.Some? && field.value != ""
  }

  /** What one card of the word list shows. */
  datatype WordCard = WordCard(german: string, czech: string, plural: string, example: string)

  /** What the word list shows: a placeholder, or one card per word in order. */
  datatype WordListView = EmptyState | Cards(cards: seq<WordCard>)

  /** Shown in place of a missing German or Czech form. */
  const Missing: string := "???"

  const PluralOpen: string := "(Pl. "
  const PluralClose: string := ")"

  /** A required field, or the placeholder when it is missing. */
  function OrMissing(field: string): (shown: string)
    ensures shown != ""
    ensures field == "" ==> shown == Missing
    ensures field != "" ==> shown == field
  {
    if field == "" then Missing else field
  }

  /** The plural line: `(Pl. x)` when a plural is present, nothing otherwise. */
  function PluralLabel(plural: Option<string>): (line: string)
    ensures line == "" <==> !Present(plural)
  {
    if Present(plural) then PluralOpen + plural.value + PluralClose else ""
  }

  /** Reads the plural back off a plural line. */
  function ParsePluralLabel(line: string): Option<string> {
    if |line| > |PluralOpen| + |PluralClose|
       && line[..|PluralOpen|] == PluralOpen
       && line[|line| - |PluralClose|..] == PluralClose
    then Some(line[|PluralOpen|..|line| - |PluralClose|])
    else None
  }

  /** The plural line loses nothing: the plural can be read back from it. */
  lemma PluralLabelRoundTrip(plural: Option<string>)
    ensures ParsePluralLabel(PluralLabel(plural)) == if Present(plural) then plural else None
  {
    if Present(plural) {
      var line := PluralLabel(plural);
      assert line[..|PluralOpen|] == PluralOpen;
      assert line[|line| - |PluralClose|..] == PluralClose;
      assert line[|PluralOpen|..|line| - |PluralClose|] == plural.value;
    }
  }

  /** The card of one word, with the word list's defaults for missing fields. */
  function CardOf(w: Word): (card: WordCard)
    ensures card.german != "" && card.czech != ""
    ensures w.german != "" ==> card.german == w.german
    ensures w.german == "" ==> card.german == Missing
    ensures w.czech != "" ==> card.czech == w.czech
    ensures w.czech == "" ==> card.czech == Missing
    ensures ParsePluralLabel(card.plural) == if Present(w.plural) then w.plural else None
    ensures card.example == "" <==> !Present(w.example)
    ensures Present(w.example) ==> card.example == w.example.value
  {
    PluralLabelRoundTrip(w.plural);
    WordCard(OrMissing(w.german), OrMissing(w.czech), PluralLabel(w.plural), w.example.GetOr(""))
  }

  /** The word list for the current words: a placeholder when there are none. */
  function RenderWords(words: seq<Word>): (view: WordListView)
    ensures view.EmptyState? <==> words == []
    ensures view.Cards? ==> |view.cards| == |words|
    ensures view.Cards? ==> forall i :: 0 <= i < |words| ==> view.cards[i] == CardOf(words[i])
  {
    if words == [] then EmptyState else Cards(seq(|words|, i requires 0 <= i < |words| => CardOf(words[i])))
  }
}
