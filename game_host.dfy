/**
 * The game host (games.js GameManager): it keeps the word list for the next
 * game, refuses every game but the flashcards when fewer than four words are
 * loaded, and records which game is running.
 */
module GameHost {
  import opened Wrappers
  import opened Vocabulary

  /** The game names the game cards carry in `data-game`. */
  const FlashcardsName: string := "flashcards"
  const QuizName: string := "quiz"
  const MemoryName: string := "memory"
  const TypingName: string := "typing"

  /** The fewest words every game but the flashcards accepts. */
  const MinWords: nat := 4

  datatype GameKind = Flashcards | Quiz | Memory | Typing

  /** Whether `startGame` lets the game `name` start with `count` words loaded. */
  predicate CanStart(count: nat, name: string) {
    count >= MinWords || name == FlashcardsName
  }

  /** The session `renderGame` builds for a game name; none for an unknown name. */
  function KindOf(name: string): (kind: Option<GameKind>)
    ensures kind == Some(Flashcards) <==> name == FlashcardsName
    ensures kind == Some(Quiz) <==> name == QuizName
    ensures kind == Some(Memory) <==> name == MemoryName
    ensures kind == Some(Typing) <==> name == TypingName
  {
    if name == FlashcardsName then Some(Flashcards)
    else if name == QuizName then Some(Quiz)
    else if name == MemoryName then Some(Memory)
    else if name == TypingName then Some(Typing)
    else None
  }

  class GameManager {
    /** The word list the next game is started with. */
    var words: seq<Word>
    /** The name of the running game, or none when the game grid is shown. */
    var activeGame: Option<string>

    constructor ()
      ensures words == [] && activeGame == None
    {
      words := [];
      activeGame := None;
    }

    /** Replaces the word list; a running game keeps the list it started with. */
    method SetWords(newWords: seq<Word>)
      modifies this`words
      ensures words == newWords
      ensures activeGame == old(activeGame)
    {
      words := newWords;
    }

    /**
     * Starts the game `name`, or refuses it (the source's alert) when it needs
     * four words and fewer are loaded; a refusal changes nothing. `session` is
     * the game `renderGame` builds on the current words: none when refused,
     * and none for a name no game card carries.
     */
    method StartGame(name: string) returns (started: bool, session: Option<GameKind>)
      modifies this`activeGame
      ensures started <==> CanStart(|words|, name)
      ensures started ==> activeGame == Some(name)
      ensures !started ==> activeGame == old(activeGame) && session == None
      ensures started ==> session == KindOf(name)
      ensures session.Some? ==> started && |words| >= if session == Some(Flashcards) then 0 else MinWords
    {
      if |words| < MinWords && name != FlashcardsName {
        return false, None;
      }
      activeGame := Some(name);
      started := true;
      session := KindOf(name);
    }

    /** Leaves the running game and shows the game grid again. */
    method StopGame()
      modifies this`activeGame
      ensures activeGame == None
    {
      activeGame := None;
    }
  }
}
