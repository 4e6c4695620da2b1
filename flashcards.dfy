/**
 * The flashcard game (games.js FlashcardGame): a shuffled deck, a cursor that
 * wraps forward and stops at the front, and a card that can be flipped.
 */
module Flashcards {
  import opened Wrappers
  import opened Vocabulary
  import opened Shuffle

  /** The cursor after `next`: one forward, or back to the first card after the last. */
  function NextIndex(index: nat, count: nat): nat {
    if index + 1 < count then index + 1 else 0
  }

  /** The cursor after `prev`: one back, but never before the first card. */
  function PrevIndex(index: nat): nat {
    if index > 0 then index - 1 else index
  }

  /** The cursor after k presses of `next` from `index`. */
  function NextTimes(index: nat, count: nat, k: nat): nat {
    if k == 0 then index else NextIndex(NextTimes(index, count, k - 1), count)
  }

  /** `next` and `prev` keep the cursor on a card. */
  lemma CursorStaysInDeck(index: nat, count: nat)
    requires index < count
    ensures NextIndex(index, count) < count
    ensures PrevIndex(index) < count
  {
  }

  /** Before the end of the deck, each `next` moves exactly one card forward. */
  lemma {:induction false} NextTimesAdvances(index: nat, count: nat, k: nat)
    requires index + k < count
    ensures NextTimes(index, count, k) == index + k
  {
    if k > 0 {
      NextTimesAdvances(index, count, k - 1);
    }
  }

  /** Pressing `next` a + b times is pressing it a times and then b times. */
  lemma {:induction false} NextTimesCompose(index: nat, count: nat, a: nat, b: nat)
    ensures NextTimes(index, count, a + b) == NextTimes(NextTimes(index, count, a), count, b)
  {
    if b > 0 {
      NextTimesCompose(index, count, a, b - 1);
    }
  }

  /** A full round of `next` presses, one per card, comes back to the card it started on. */
  lemma FullRoundReturns(index: nat, count: nat)
    requires index < count
    ensures NextTimes(index, count, count) == index
  {
    var toLast := count - 1 - index;
    NextTimesAdvances(index, count, toLast);
    assert NextTimes(index, count, toLast + 1) == 0;
    NextTimesCompose(index, count, toLast + 1, index);
    NextTimesAdvances(0, count, index);
  }

  /** `prev` undoes a `next` that did not wrap, and `next` undoes a `prev` that moved. */
  lemma PrevUndoesNext(index: nat, count: nat)
    requires index < count
    ensures index + 1 < count ==> PrevIndex(NextIndex(index, count)) == index
    ensures index > 0 ==> NextIndex(PrevIndex(index), count) == index
  {
  }

  /** What the card shows once its content is updated. */
  datatype Face = Face(front: string, back: string, example: string, position: nat, total: nat)

  class FlashcardGame {
    /** The deck, shuffled once at the start. */
    const words: seq<Word>
    var currentIndex: nat
    var isFlipped: bool

    /** The cursor is on a card; on an empty deck it stays at 0. */
    ghost predicate Valid()
      reads this
    {
      if words == [] then currentIndex == 0 else currentIndex < |words|
    }

    /** Starts on the first card of the deck `pool` shuffled by `perm`, front side up. */
    constructor (pool: seq<Word>, perm: seq<nat>)
      requires IsPermutation(perm, |pool|)
      ensures Valid()
      ensures words == Permute(pool, perm)
      ensures multiset(words) == multiset(pool)
      ensures currentIndex == 0 && !isFlipped
    {
      words := Permute(pool, perm);
      currentIndex := 0;
      isFlipped := false;
      PermutePreservesMultiset(pool, perm);
    }

    /** The content the card shows 150ms after an update; none for an empty deck. */
    function Shown(): (face: Option<Face>)
      reads this
      requires Valid()
      ensures face.None? <==> words == []
      ensures face.Some? ==> face.value.position == currentIndex + 1 <= face.value.total == |words|
      ensures face.Some? ==> face.value.front == words[currentIndex].german && face.value.back == words[currentIndex].czech
      ensures face.Some? ==> face.value.example == words[currentIndex].example.GetOr("")
    {
      if words == [] then None
      else
        var w := words[currentIndex];
        Some(Face(w.german, w.czech, w.example.GetOr(""), currentIndex + 1, |words|))
    }

    /** Turns the card over. */
    method Flip()
      modifies this`isFlipped
      ensures isFlipped == !old(isFlipped)
    {
      isFlipped := !isFlipped;
    }

    /** Shows the card under the cursor front side up. */
    method UpdateCard()
      modifies this`isFlipped
      ensures !isFlipped
    {
      isFlipped := false;
    }

    /** Moves to the next card, wrapping from the last to the first, front side up. */
    method Next()
      requires Valid()
      modifies this`currentIndex, this`isFlipped
      ensures Valid()
      ensures currentIndex == NextIndex(old(currentIndex), |words|)
      ensures !isFlipped
    {
      if currentIndex + 1 < |words| {
        currentIndex := currentIndex + 1;
        UpdateCard();
      } else {
        currentIndex := 0;
        UpdateCard();
      }
    }

    /** Moves to the previous card, front side up; on the first card nothing happens. */
    method Prev()
      requires Valid()
      modifies this`currentIndex, this`isFlipped
      ensures Valid()
      ensures currentIndex == PrevIndex(old(currentIndex))
      ensures old(currentIndex) > 0 ==> !isFlipped
      ensures old(currentIndex) == 0 ==> isFlipped == old(isFlipped)
    {
      if currentIndex > 0 {
        currentIndex := currentIndex - 1;
        UpdateCard();
      }
    }

    /** The keyboard: right arrow, left arrow, and space or Enter to flip. */
    method HandleKey(key: string)
      requires Valid()
      modifies this`currentIndex, this`isFlipped
      ensures Valid()
      ensures key == "ArrowRight" ==> currentIndex == NextIndex(old(currentIndex), |words|) && !isFlipped
      ensures key == "ArrowLeft" ==> currentIndex == PrevIndex(old(currentIndex))
      ensures key == "ArrowLeft" ==> (old(currentIndex) > 0 ==> !isFlipped) && (old(currentIndex) == 0 ==> isFlipped == old(isFlipped))
      ensures (key == " " || key == "Enter") ==> currentIndex == old(currentIndex) && isFlipped == !old(isFlipped)
      ensures key !in {"ArrowRight", "ArrowLeft", " ", "Enter"} ==> currentIndex == old(currentIndex) && isFlipped == old(isFlipped)
    {
      if key == "ArrowRight" {
        Next();
      }
      if key == "ArrowLeft" {
        Prev();
      }
      if key == " " || key == "Enter" {
        Flip();
      }
    }
  }
}
