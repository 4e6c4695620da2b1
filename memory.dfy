/**
 * The memory game (games.js MemoryGame): up to eight words, two cards per word,
 * shuffled once. Two face-up cards match when they carry the same id, the
 * German word, although they show different text. Cards are identified by
 * their position on the board.
 */
module Memory {
  import opened Vocabulary
  import opened Shuffle

  /** The most words one board uses. */
  const MaxWords: nat := 8

  datatype Side = German | Czech

  /** One card: `id` decides matches, `text` is what it shows. */
  datatype Card = Card(id: string, text: string, side: Side)

  function Min(a: nat, b: nat): nat {
    if a <= b then a else b
  }

  /** The two cards of one word, German side first. */
  function PairOf(w: Word): seq<Card> {
    [Card(w.german, w.german, German), Card(w.german, w.czech, Czech)]
  }

  /** The unshuffled board: the pair of every word, in word order. */
  function Deal(words: seq<Word>): (cards: seq<Card>)
    ensures |cards| == 2 * |words|
  {
    if words == [] then [] else Deal(words[..|words| - 1]) + PairOf(words[|words| - 1])
  }

  /** Each word yields its German card at 2i and its Czech card at 2i + 1. */
  lemma {:induction false} DealLayout(words: seq<Word>)
    ensures |Deal(words)| == 2 * |words|
    ensures forall i :: 0 <= i < |words| ==>
      Deal(words)[2 * i] == Card(words[i].german, words[i].german, German)
      && Deal(words)[2 * i + 1] == Card(words[i].german, words[i].czech, Czech)
  {
    if words != [] {
      DealLayout(words[..|words| - 1]);
    }
  }

  function Ids(cards: seq<Card>): (ids: seq<string>)
    ensures |ids| == |cards|
  {
    seq(|cards|, i requires 0 <= i < |cards| => cards[i].id)
  }

  function Germans(words: seq<Word>): (gs: seq<string>)
    ensures |gs| == |words|
  {
    seq(|words|, i requires 0 <= i < |words| => words[i].german)
  }

  /** Every German word of the dealt words is the id of two cards per occurrence. */
  lemma {:induction false} DealIdsTwice(words: seq<Word>)
    ensures forall g :: multiset(Ids(Deal(words)))[g] == 2 * multiset(Germans(words))[g]
  {
    if words != [] {
      var front := words[..|words| - 1];
      var g := words[|words| - 1].german;
      DealIdsTwice(front);
      assert Ids(Deal(words)) == Ids(Deal(front)) + [g, g];
      assert Germans(words) == Germans(front) + [g];
    }
  }

  /** Every card of the dealt words carries the German form of one of them. */
  lemma DealIdsFromWords(words: seq<Word>)
    ensures forall c :: c in Deal(words) ==> c.id in Germans(words)
  {
    DealIdsTwice(words);
    forall c | c in Deal(words)
      ensures c.id in Germans(words)
    {
      var i :| 0 <= i < |Deal(words)| && Deal(words)[i] == c;
      assert Ids(Deal(words))[i] == c.id;
      assert multiset(Ids(Deal(words)))[c.id] > 0;
    }
  }

  /** Shuffling the board shuffles its ids alike. */
  lemma IdsOfPermute(cards: seq<Card>, perm: seq<nat>)
    requires IsPermutation(perm, |cards|)
    ensures Ids(Permute(cards, perm)) == Permute(Ids(cards), perm)
  {
  }

  /** A prefix holds no element more often than the whole sequence. */
  lemma PrefixMultiset<T>(s: seq<T>, k: nat)
    requires k <= |s|
    ensures multiset(s[..k]) <= multiset(s)
  {
    assert s == s[..k] + s[k..];
  }

  /** The words the board uses: the first eight of the shuffled pool. */
  function BoardWords(pool: seq<Word>, pick: seq<nat>): (chosen: seq<Word>)
    requires IsPermutation(pick, |pool|)
    ensures |chosen| == Min(MaxWords, |pool|)
    ensures multiset(chosen) <= multiset(pool)
  {
    var shuffled := Permute(pool, pick);
    PermutePreservesMultiset(pool, pick);
    PrefixMultiset(shuffled, Min(MaxWords, |pool|));
    shuffled[..Min(MaxWords, |pool|)]
  }

  /**
   * The setup loop: push the German card and the Czech card of every chosen
   * word in turn.
   */
  method BuildPairs(words: seq<Word>) returns (cards: seq<Card>)
    ensures cards == Deal(words)
  {
    cards := [];
    for i := 0 to |words|
      invariant cards == Deal(words[..i])
    {
      assert words[..i + 1][..i] == words[..i];
      cards := cards + [Card(words[i].german, words[i].german, German)];
      cards := cards + [Card(words[i].german, words[i].czech, Czech)];
    }
    assert words[..|words|] == words;
  }

  /**
   * A board from pool words with distinct German forms: 2 * min(8, |pool|)
   * cards, and every chosen word is the id of exactly two of them.
   */
  lemma BoardHasPairs(pool: seq<Word>, pick: seq<nat>, layout: seq<nat>)
    requires IsPermutation(pick, |pool|)
    requires IsPermutation(layout, 2 * Min(MaxWords, |pool|))
    requires Distinct(Germans(pool))
    ensures var chosen := BoardWords(pool, pick);
      var cards := Permute(Deal(chosen), layout);
      && |cards| == 2 * Min(MaxWords, |pool|)
      && multiset(cards) == multiset(Deal(chosen))
      && (forall i :: 0 <= i < |chosen| ==> multiset(Ids(cards))[chosen[i].german] == 2)
      && (forall c :: c in cards ==> c.id in Germans(chosen))
  {
    var shuffled := Permute(pool, pick);
    var chosen := BoardWords(pool, pick);
    assert Germans(shuffled) == Permute(Germans(pool), pick);
    PermutePreservesMultiset(Germans(pool), pick);
    DistinctPreserved(Germans(pool), Germans(shuffled));
    assert Germans(chosen) == Germans(shuffled)[..|chosen|];
    DealIdsTwice(chosen);
    DealIdsFromWords(chosen);
    DistinctCounts(Germans(chosen));
    forall i | 0 <= i < |chosen|
      ensures multiset(Germans(chosen))[chosen[i].german] == 1
    {
      assert Germans(chosen)[i] == chosen[i].german;
    }
    var cards := Permute(Deal(chosen), layout);
    PermutePreservesMultiset(Deal(chosen), layout);
    IdsOfPermute(Deal(chosen), layout);
    PermutePreservesMultiset(Ids(Deal(chosen)), layout);
    forall c | c in cards
      ensures c.id in Germans(chosen)
    {
      assert c in multiset(Deal(chosen));
    }
  }

  /** A board whose matched list has as many entries as cards has every card matched. */
  lemma FullyMatchedBoard(matched: seq<nat>, n: nat)
    requires Distinct(matched) && |matched| == n
    requires forall i :: 0 <= i < |matched| ==> matched[i] < n
    ensures forall k :: 0 <= k < n ==> k in matched
  {
    DistinctCovers(matched, n);
  }

  class MemoryGame {
    const cards: seq<Card>
    /** The face-up cards not yet matched, in the order they were turned. */
    var flipped: seq<nat>
    /** The matched cards, pair by pair. */
    var matched: seq<nat>
    /** Clicks are ignored while two cards are face up. */
    var isLocked: bool

    ghost predicate OnBoard(positions: seq<nat>)
      reads this
    {
      forall i :: 0 <= i < |positions| ==> positions[i] < |cards|
    }

    /** Consecutive entries of `matched` form pairs with equal ids. */
    ghost predicate Paired()
      reads this
      requires OnBoard(matched)
    {
      && |matched| % 2 == 0
      && forall p :: 0 <= 2 * p + 1 < |matched| ==> cards[matched[2 * p]].id == cards[matched[2 * p + 1]].id
    }

    ghost predicate Valid()
      reads this
    {
      && OnBoard(flipped) && OnBoard(matched)
      && Distinct(flipped) && Distinct(matched)
      && (forall k :: k in flipped ==> k !in matched)
      && |flipped| <= 2
      && (isLocked <==> |flipped| == 2)
      && Paired()
    }

    /**
     * Builds the board from the first eight words of the pool shuffled by
     * `pick`, and lays the cards out in the order `layout`.
     */
    constructor (pool: seq<Word>, pick: seq<nat>, layout: seq<nat>)
      requires IsPermutation(pick, |pool|)
      requires IsPermutation(layout, 2 * Min(MaxWords, |pool|))
      ensures Valid()
      ensures cards == Permute(Deal(BoardWords(pool, pick)), layout)
      ensures flipped == [] && matched == [] && !isLocked
    {
      var chosen := BoardWords(pool, pick);
      var pairs := BuildPairs(chosen);
      DealLayout(chosen);
      cards := Permute(pairs, layout);
      flipped := [];
      matched := [];
      isLocked := false;
    }

    /**
     * A click on the card at `index`. It is ignored while locked, on a matched
     * card, or on a card already face up; otherwise the card turns face up, and
     * the second face-up card is checked against the first. `won` is the
     * victory message: the click that matches the last pair.
     */
    method HandleCardClick(index: nat) returns (won: bool)
      requires Valid() && index < |cards|
      modifies this`flipped, this`matched, this`isLocked
      ensures Valid()
      ensures old(isLocked || index in matched || index in flipped) ==>
        flipped == old(flipped) && matched == old(matched) && isLocked == old(isLocked) && !won
      ensures !old(isLocked || index in matched || index in flipped) ==>
        var turned := old(flipped) + [index];
        if |turned| < 2 then
          flipped == turned && matched == old(matched) && !isLocked && !won
        else if cards[turned[0]].id == cards[turned[1]].id then
          matched == old(matched) + turned && flipped == [] && !isLocked && (won <==> |matched| == |cards|)
        else
          flipped == turned && matched == old(matched) && isLocked && !won
      ensures old(matched) <= matched
      ensures old(|matched|) == |cards| ==> matched == old(matched) && !won
    {
      if |matched| == |cards| {
        FullyMatchedBoard(matched, |cards|);
      }
      if isLocked || index in matched || index in flipped {
        return false;
      }
      flipped := flipped + [index];
      won := false;
      if |flipped| == 2 {
        won := CheckMatch();
      }
    }

    /**
     * Compares the two face-up cards. Equal ids: both are matched, and the lock
     * is released at once. Different ids: the lock stays until ResolveMismatch.
     */
    method CheckMatch() returns (won: bool)
      requires OnBoard(flipped) && OnBoard(matched) && Paired()
      requires Distinct(flipped) && Distinct(matched) && |flipped| == 2
      requires forall k :: k in flipped ==> k !in matched
      modifies this`flipped, this`matched, this`isLocked
      ensures Valid()
      ensures cards[old(flipped)[0]].id == cards[old(flipped)[1]].id ==>
        matched == old(matched) + old(flipped) && flipped == [] && !isLocked && (won <==> |matched| == |cards|)
      ensures cards[old(flipped)[0]].id != cards[old(flipped)[1]].id ==>
        flipped == old(flipped) && matched == old(matched) && isLocked && !won
    {
      isLocked := true;
      var c1, c2 := flipped[0], flipped[1];
      if cards[c1].id == cards[c2].id {
        ghost var before := matched;
        matched := matched + [c1, c2];
        assert c1 != c2 && c1 !in before && c2 !in before;
        assert forall i :: 0 <= i < |before| ==> matched[i] == before[i];
        assert forall p :: 0 <= 2 * p + 1 < |before| ==> matched[2 * p] == before[2 * p] && matched[2 * p + 1] == before[2 * p + 1];
        flipped := [];
        isLocked := false;
        won := |matched| == |cards|;
      } else {
        won := false;
      }
    }

    /** The mismatch timer, a second later: both cards turn face down and the lock is released. */
    method ResolveMismatch()
      requires Valid()
      modifies this`flipped, this`isLocked
      ensures Valid()
      ensures flipped == [] && !isLocked
      ensures matched == old(matched)
    {
      flipped := [];
      isLocked := false;
    }
  }
}
