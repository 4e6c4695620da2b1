/**
 * The multiple-choice quiz (games.js QuizGame). Words are identified by their
 * position in the pool, since the source compares entries by reference. Every
 * `Math.random()` pick is a parameter: the target position, the stream of
 * positions the distractor loop draws, and the permutation that shuffles the
 * four options.
 */
module Quiz {
  import opened Vocabulary
  import opened Shuffle

  /** How many wrong options a question has. */
  const DistractorCount: nat := 3

  /**
   * The distractors the loop collects from the draws: each draw that is
   * neither the target nor already taken is added, until three are taken.
   */
  function Gather(draws: seq<nat>, target: nat, taken: seq<nat>): seq<nat>
    decreases |draws|
  {
    if |taken| >= DistractorCount || draws == [] then taken
    else if draws[0] != target && draws[0] !in taken then Gather(draws[1..], target, taken + [draws[0]])
    else Gather(draws[1..], target, taken)
  }

  /** The draws let the loop finish: they hold three distinct positions other than the target. */
  predicate DrawsSuffice(draws: seq<nat>, target: nat) {
    |Gather(draws, target, [])| == DistractorCount
  }

  predicate Below(s: seq<nat>, n: nat) {
    forall i :: 0 <= i < |s| ==> s[i] < n
  }

  /** Whatever the loop collects is distinct, avoids the target and stays in the pool. */
  lemma {:induction false} GatherSound(draws: seq<nat>, target: nat, taken: seq<nat>, n: nat)
    requires Below(draws, n) && Below(taken, n)
    requires Distinct(taken) && target !in taken
    ensures var d := Gather(draws, target, taken);
      Below(d, n) && Distinct(d) && target !in d && |d| <= |taken| + |draws|
    decreases |draws|
  {
    if |taken| < DistractorCount && draws != [] {
      if draws[0] != target && draws[0] !in taken {
        GatherSound(draws[1..], target, taken + [draws[0]], n);
      } else {
        GatherSound(draws[1..], target, taken, n);
      }
    }
  }

  /** The loop can only finish when the pool holds at least four words. */
  lemma QuizNeedsFourWords(draws: seq<nat>, target: nat, n: nat)
    requires target < n && Below(draws, n)
    requires DrawsSuffice(draws, target)
    ensures n >= 4
  {
    GatherSound(draws, target, [], n);
    var d := Gather(draws, target, []);
    var all: seq<nat> := d + [target];
    assert Distinct(all);
    DistinctBound(all, n);
  }

  /** With four words or more, some draws let the loop finish, whatever the target. */
  lemma FourWordsSuffice(target: nat, n: nat)
    requires 4 <= n && target < n
    ensures Below(Range(4), n)
    ensures DrawsSuffice(Range(4), target)
  {
    var draws := Range(4);
    assert draws == [0, 1, 2, 3];
    assert draws[1..] == [1, 2, 3];
    assert draws[2..] == [2, 3];
    assert draws[3..] == [3];
  }

  /**
   * The distractor loop: draw positions until three distinct ones other than
   * the target are collected.
   */
  method PickDistractors(n: nat, target: nat, draws: seq<nat>) returns (distractors: seq<nat>)
    requires target < n && Below(draws, n)
    requires DrawsSuffice(draws, target)
    ensures |distractors| == DistractorCount
    ensures Distinct(distractors) && target !in distractors && Below(distractors, n)
    ensures distractors == Gather(draws, target, [])
  {
    distractors := [];
    var i := 0;
    while |distractors| < DistractorCount
      invariant i <= |draws|
      invariant Gather(draws[i..], target, distractors) == Gather(draws, target, [])
      invariant Distinct(distractors) && target !in distractors && Below(distractors, n)
      decreases |draws| - i
    {
      assert draws[i..] != [];
      var w := draws[i];
      assert draws[i..][1..] == draws[i + 1..];
      if w != target && w !in distractors {
        distractors := distractors + [w];
      }
      i := i + 1;
    }
  }

  /** The four options: the distractors and the target, shuffled by `order`. */
  function Options(distractors: seq<nat>, target: nat, order: seq<nat>): seq<nat>
    requires |distractors| == DistractorCount && IsPermutation(order, DistractorCount + 1)
  {
    Permute(distractors + [target], order)
  }

  /**
   * Four distinct options, exactly one of which is the target: one button is
   * marked correct.
   */
  lemma OptionsHaveOneAnswer(distractors: seq<nat>, target: nat, order: seq<nat>)
    requires |distractors| == DistractorCount && IsPermutation(order, DistractorCount + 1)
    requires Distinct(distractors) && target !in distractors
    ensures var options := Options(distractors, target, order);
      && |options| == 4
      && multiset(options) == multiset(distractors + [target])
      && Distinct(options)
      && multiset(options)[target] == 1
      && target in options
  {
    var all: seq<nat> := distractors + [target];
    PermutePreservesMultiset(all, order);
    assert Distinct(all);
    DistinctPreserved(all, Options(distractors, target, order));
    assert target in all;
    DistinctCounts(all);
    assert multiset(all)[target] == 1;
  }

  /** With exactly four words, the options are the whole pool. */
  lemma FourWordPoolUsesEveryWord(distractors: seq<nat>, target: nat, order: seq<nat>)
    requires |distractors| == DistractorCount && IsPermutation(order, DistractorCount + 1)
    requires Distinct(distractors) && target !in distractors
    requires target < 4 && Below(distractors, 4)
    ensures forall k :: 0 <= k < 4 ==> k in Options(distractors, target, order)
  {
    OptionsHaveOneAnswer(distractors, target, order);
    var options := Options(distractors, target, order);
    assert forall i :: 0 <= i < 4 ==> options[i] in multiset(distractors + [target]);
    DistinctCovers(options, 4);
  }

  class QuizGame {
    const allWords: seq<Word>
    var score: nat
    var questionCount: nat
    /** The position of the word asked for. */
    var target: nat
    /** The positions of the words on the four buttons, in button order. */
    var options: seq<nat>
    /** The buttons are disabled once an answer is given. */
    var answered: bool

    ghost predicate Valid()
      reads this
    {
      && target < |allWords|
      && |options| == 4
      && Below(options, |allWords|)
      && Distinct(options)
      && multiset(options)[target] == 1
    }

    /** Starts with no score and asks the first question. */
    constructor (words: seq<Word>, pick: nat, draws: seq<nat>, order: seq<nat>)
      requires pick < |words| && Below(draws, |words|)
      requires DrawsSuffice(draws, pick)
      requires IsPermutation(order, DistractorCount + 1)
      ensures Valid()
      ensures allWords == words && score == 0 && questionCount == 1
      ensures target == pick && options == Options(Gather(draws, pick, []), pick, order)
      ensures !answered
    {
      allWords := words;
      score := 0;
      questionCount := 0;
      new;
      NextQuestion(pick, draws, order);
    }

    /**
     * Asks a new question about the word at `pick`, with distractors from
     * `draws` and the options in the order `order`; the question count grows
     * by one. The answer timer calls this 1.5 seconds after an answer.
     */
    method NextQuestion(pick: nat, draws: seq<nat>, order: seq<nat>)
      requires pick < |allWords| && Below(draws, |allWords|)
      requires DrawsSuffice(draws, pick)
      requires IsPermutation(order, DistractorCount + 1)
      modifies this`questionCount, this`target, this`options, this`answered
      ensures Valid()
      ensures questionCount == old(questionCount) + 1
      ensures target == pick && options == Options(Gather(draws, pick, []), pick, order)
      ensures !answered
    {
      questionCount := questionCount + 1;
      target := pick;
      var distractors := PickDistractors(|allWords|, target, draws);
      options := Options(distractors, target, order);
      OptionsHaveOneAnswer(distractors, target, order);
      PermutationBounds(order, DistractorCount + 1);
      answered := false;
    }

    /**
     * A click on the button at `button`: the score grows by one exactly when
     * its word is the target. Once answered, the buttons are disabled and
     * further clicks do nothing.
     */
    method HandleAnswer(button: nat) returns (correct: bool)
      requires Valid() && button < |options|
      modifies this`score, this`answered
      ensures correct <==> !old(answered) && options[button] == target
      ensures score == old(score) + (if correct then 1 else 0)
      ensures answered
    {
      if answered {
        return false;
      }
      correct := options[button] == target;
      answered := true;
      if correct {
        score := score + 1;
      }
    }
  }
}
