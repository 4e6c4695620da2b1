/**
 * The typing game (games.js TypingGame): the player types the German word for
 * the Czech word shown. The answer is compared after trimming the input and
 * lowercasing both sides; a correct answer extends the streak, a wrong one
 * resets it and keeps the word.
 */
module Typing {
  import opened Vocabulary
  import opened Text

  /** The comparison of the check closure: trimmed input against the German word, ignoring case. */
  predicate Accepts(input: string, german: string) {
    Lower(Trim(input)) == Lower(german)
  }

  /** Lowercasing keeps whitespace at the ends of a word, and keeps it away from them. */
  lemma LowerKeepsTrimmed(s: string)
    ensures Trimmed(Lower(s)) <==> Trimmed(s)
  {
    if s != [] {
      LowerKeepsSpace(s[0]);
      LowerKeepsSpace(s[|s| - 1]);
      assert Lower(s)[0] == LowerChar(s[0]);
      assert Lower(s)[|s| - 1] == LowerChar(s[|s| - 1]);
    }
  }

  /** Any input that differs from a trimmed target only in letter case and surrounding whitespace is accepted. */
  lemma AcceptsCaseAndPadding(lead: string, answer: string, trail: string, german: string)
    requires AllSpace(lead) && AllSpace(trail)
    requires Trimmed(german)
    requires Lower(answer) == Lower(german)
    ensures Accepts(lead + answer + trail, german)
  {
    LowerKeepsTrimmed(german);
    LowerKeepsTrimmed(answer);
    TrimPadding(lead, answer, trail);
  }

  /** Trimming applies to the input only: a German word with whitespace at either end is never accepted. */
  lemma PaddedTargetNeverAccepted(input: string, german: string)
    requires !Trimmed(german)
    ensures !Accepts(input, german)
  {
    LowerKeepsTrimmed(Trim(input));
    LowerKeepsTrimmed(german);
  }

  function Min(a: nat, b: nat): nat {
    if a <= b then a else b
  }

  const Ellipsis: string := "..."

  /** The hint: the first three characters of the German word and an ellipsis. */
  function Hint(german: string): (hint: string)
    ensures |hint| == Min(3, |german|) + |Ellipsis|
    ensures hint[..|hint| - |Ellipsis|] == german[..Min(3, |german|)]
    ensures hint[|hint| - |Ellipsis|..] == Ellipsis
  {
    german[..Min(3, |german|)] + Ellipsis
  }

  /** The hint shows the whole word when it has three characters or fewer. */
  lemma ShortWordHintShowsAll(german: string)
    requires |german| <= 3
    ensures Hint(german) == german + Ellipsis
  {
  }

  /** Trimming keeps a full stop at the end of a string. */
  lemma TrimKeepsFinalStop(s: string)
    requires s != [] && s[|s| - 1] == '.'
    ensures '.' in Trim(s)
  {
    var front := TrimStart(s);
    assert !IsSpace(s[|s| - 1]);
    assert front != [] && front[|front| - 1] == '.';
    assert TrimEnd(front) == front;
  }

  /** Lowercasing neither creates nor removes a full stop. */
  lemma LowerKeepsStops(s: string)
    ensures '.' in Lower(s) <==> '.' in s
  {
    assert forall i :: 0 <= i < |s| ==> (Lower(s)[i] == '.' <==> s[i] == '.');
  }

  /** Submitting the hint itself is never correct for a German word without a full stop. */
  lemma HintIsNotAnAnswer(german: string)
    requires '.' !in german
    ensures !Accepts(Hint(german), german)
  {
    var hint := Hint(german);
    assert hint[|hint| - 1] == '.';
    TrimKeepsFinalStop(hint);
    LowerKeepsStops(Trim(hint));
    LowerKeepsStops(german);
  }

  class TypingGame {
    const words: seq<Word>
    var currentWord: Word
    var streak: nat

    /** Starts with no streak on the word at `pick`. */
    constructor (pool: seq<Word>, pick: nat)
      requires pick < |pool|
      ensures words == pool && currentWord == pool[pick] && streak == 0
    {
      words := pool;
      currentWord := pool[pick];
      streak := 0;
    }

    /** Moves to the word at `pick`; the correct-answer timer calls this a second later. */
    method NextWord(pick: nat)
      requires pick < |words|
      modifies this`currentWord
      ensures currentWord == words[pick]
    {
      currentWord := words[pick];
    }

    /**
     * Checks the typed `input`: a correct answer extends the streak by one, a
     * wrong one resets it to 0. The word stays until NextWord is called.
     */
    method Check(input: string) returns (correct: bool)
      modifies this`streak
      ensures correct <==> Accepts(input, currentWord.german)
      ensures streak == if correct then old(streak) + 1 else 0
    {
      var typed := Trim(input);
      correct := Lower(typed) == Lower(currentWord.german);
      if correct {
        streak := streak + 1;
      } else {
        streak := 0;
      }
    }

    /** What the hint button puts into the input field. */
    function HintText(): (hint: string)
      reads this
      ensures |hint| == Min(3, |currentWord.german|) + |Ellipsis|
      ensures hint[..|hint| - |Ellipsis|] == currentWord.german[..Min(3, |currentWord.german|)]
      ensures hint[|hint| - |Ellipsis|..] == Ellipsis
    {
      Hint(currentWord.german)
    }
  }
}
