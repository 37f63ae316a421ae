/** The game session: the `gameState` object of src/game.js:1-10 and the
    handlers that change it, from the roster set-up to the last card. */
module Session {
  import opened Runtime
  import opened Collections
  import opened Categorizer
  import opened Shuffle
  import opened Selection
  import opened Targets

  datatype Direction = Left | Right

  /** How `startGame` ends: one of its two alerts, a crash on a deck that is
      not loaded or not found, or a started game. */
  datatype StartOutcome = NoPlayers | NeedTwoPlayers | DataMissing | Started

  /** The two guards at the top of `startGame` (src/game.js:183-191), on the
      roster size: the outcome they stop the start with, if any. */
  function StartValidation(playerCount: nat): Option<StartOutcome>
  {
    if playerCount == 0 then Some(NoPlayers)
    else if playerCount < 2 && playerCount != 1 then Some(NeedTwoPlayers)
    else None
  }

  /** The second guard never fires: below 2 and not 1 leaves only 0, which the
      first guard has already stopped. A single player starts a game. */
  lemma SecondGuardNeverFires(playerCount: nat)
    ensures StartValidation(playerCount) != Some(NeedTwoPlayers)
    ensures StartValidation(playerCount) == Some(NoPlayers) <==> playerCount == 0
    ensures StartValidation(playerCount).None? <==> playerCount >= 1
  {
  }

  /** The player a left swipe charges (src/game.js:293): the roster entry at a
      random index. */
  function PenaltyRecipient(players: seq<string>, draw: real): (p: string)
    requires players != [] && 0.0 <= draw < 1.0
    ensures p in players
  {
    players[RandomIndex(draw, |players|)]
  }

  // ---------------------------------------------------------------------------
  // The card on screen (src/game.js:210-246)

  /** `xs[i]`, which is `undefined` past the end. */
  function At(xs: seq<string>, i: nat): Option<string>
  {
    if i < |xs| then Some(xs[i]) else None
  }

  /** Who or what a card is shown with. */
  datatype Target =
    | OnePlayer(player: Option<string>)
    | Timer(seconds: nat)
    | Duel(first: Option<string>, second: Option<string>)
    | TeamSplit(teams: Teams)

  datatype Screen = EndScreen | CardScreen(card: Card, target: Target)

  /** The target `displayCard` computes for a card, by its category. */
  function CardTarget(card: Card, players: seq<string>, permute: seq<string> -> seq<string>): Target
  {
    match CardCategory(card)
    case Single => OnePlayer(At(GetRandomPlayers(players, 1, [], permute), 0))
    case TimeBased => Timer(TimerDuration(card.text))
    case Duel1v1 =>
      var duo := GetRandomPlayers(players, 2, [], permute);
      Duel(At(duo, 0), At(duo, 1))
    case GroupDuel => TeamSplit(CreateTeams(players, permute))
  }

  /** On a duplicate-free roster: a single card names a roster member; a duel
      names two different members, and with one player the second is
      `undefined`; a timed card counts down its own duration. */
  lemma CardTargetSpec(card: Card, players: seq<string>, permute: seq<string> -> seq<string>)
    requires IsPermuter(permute) && NoDup(players) && players != []
    ensures var t := CardTarget(card, players, permute);
            && (CardCategory(card) == Single ==> t.OnePlayer? && t.player.Some? && t.player.value in players)
            && (CardCategory(card) == Duel1v1 ==>
                  && t.Duel? && t.first.Some? && t.first.value in players
                  && (|players| == 1 <==> t.second.None?)
                  && (t.second.Some? ==> t.second.value in players && t.second.value != t.first.value))
            && (CardCategory(card) == TimeBased ==> t == Timer(TimerDuration(card.text)))
  {
    AvailableIsRoster(players);
    GetRandomPlayersSpec(players, 1, [], permute);
    GetRandomPlayersSpec(players, 2, [], permute);
    var duo := GetRandomPlayers(players, 2, [], permute);
    if |duo| == 2 {
      assert duo[0] != duo[1];
    }
  }

  /** With nothing excluded, the players available are the whole roster. */
  lemma AvailableIsRoster(players: seq<string>)
    ensures |FilterOut(players, [])| == |players|
  {
    assert |multiset(FilterOut(players, []))| == |multiset(players)|;
  }

  /** The player charged by a left swipe is drawn afresh, so it need not be the
      one a single card showed: on any roster of two or more, whatever player
      the card showed, some draw charges someone else. */
  lemma PenaltyRecipientMayDiffer(card: Card, players: seq<string>, permute: seq<string> -> seq<string>)
    requires IsPermuter(permute) && NoDup(players) && |players| >= 2 && CardCategory(card) == Single
    ensures exists draw: real :: 0.0 <= draw < 1.0 &&
              CardTarget(card, players, permute) != OnePlayer(Some(PenaltyRecipient(players, draw)))
  {
    CardTargetSpec(card, players, permute);
    var shown := CardTarget(card, players, permute).player.value;
    var k := if players[0] != shown then 0 else 1;
    var draw := DrawFor(k, |players|);
    assert PenaltyRecipient(players, draw) == players[k];
  }

  /** A draw that `Math.floor(draw * n)` maps to index `k`. */
  lemma DrawFor(k: nat, n: nat) returns (draw: real)
    requires k < n
    ensures 0.0 <= draw < 1.0 && RandomIndex(draw, n) == k
  {
    draw := k as real / n as real;
    assert draw * n as real == k as real;
  }

  // ---------------------------------------------------------------------------
  // The state

  /** The one name that a plain object literal such as `scores = {}` cannot hold
      as a key: assigning `scores['__proto__']` calls the inherited setter of
      `Object.prototype`, which ignores a number, so no entry is created, and
      `delete` finds nothing to remove. */
  const ProtoKey: string := "__proto__"

  /** The names of `players` that have an entry in the score object. */
  function Scored(players: seq<string>): (names: set<string>)
    ensures forall p :: p in names <==> p in players && p != ProtoKey
  {
    set p | p in players && p != ProtoKey
  }

  class GameState {
    var players: seq<string>
    var gameType: string
    var difficulty: int
    var cardCount: int
    var currentCards: seq<Card>
    var currentCardIndex: nat
    var scores: map<string, int>

    /** The roster has no duplicate and the score table has exactly one entry per
        player, except for a player named `__proto__`, who never gets one. */
    ghost predicate Valid()
      reads this
    {
      NoDup(players) && scores.Keys == Scored(players)
    }

    /** The initial `gameState` (src/game.js:1-10). */
    constructor ()
      ensures players == [] && scores == map[]
      ensures gameType == "casual" && difficulty == 1 && cardCount == 20
      ensures currentCards == [] && currentCardIndex == 0
      ensures Valid()
    {
      players, scores := [], map[];
      gameType, difficulty, cardCount := "casual", 1, 20;
      currentCards, currentCardIndex := [], 0;
    }

    /** `resetGame`: back to the initial state. */
    method Reset()
      modifies this
      ensures players == [] && scores == map[]
      ensures gameType == "casual" && difficulty == 1 && cardCount == 20
      ensures currentCards == [] && currentCardIndex == 0
      ensures Valid()
    {
      players, scores := [], map[];
      gameType, difficulty, cardCount := "casual", 1, 20;
      currentCards, currentCardIndex := [], 0;
    }

    /** `addPlayer`: the trimmed input joins the roster with a score of 0 (none
        for `__proto__`) and the input box is cleared, unless it is empty or
        already a player, in which case nothing changes. Returns the input box's
        new content. */
    method AddPlayer(inputValue: string) returns (inputAfter: string)
      requires Valid()
      modifies this
      ensures Valid()
      ensures var name := Trim(inputValue);
              if name != [] && name !in old(players) then
                && players == old(players) + [name] && inputAfter == ""
                && scores == if name == ProtoKey then old(scores) else old(scores)[name := 0]
              else
                players == old(players) && scores == old(scores) && inputAfter == inputValue
      ensures gameType == old(gameType) && difficulty == old(difficulty) && cardCount == old(cardCount)
      ensures currentCards == old(currentCards) && currentCardIndex == old(currentCardIndex)
    {
      var name := Trim(inputValue);
      inputAfter := inputValue;
      if name != [] && name !in players {
        NoDupAppend(players, name);
        players := players + [name];
        if name != ProtoKey {
          scores := scores[name := 0];
        }
        inputAfter := "";
      }
    }

    /** `removePlayer`: every occurrence of the name leaves the roster, which
        otherwise keeps its order, and its score entry, if any, is deleted. */
    method RemovePlayer(name: string)
      requires Valid()
      modifies this
      ensures Valid()
      ensures players == FilterOut(old(players), [name]) && scores == old(scores) - {name}
      ensures name !in players && forall p :: p != name ==> (p in players <==> p in old(players))
      ensures gameType == old(gameType) && difficulty == old(difficulty) && cardCount == old(cardCount)
      ensures currentCards == old(currentCards) && currentCardIndex == old(currentCardIndex)
    {
      ghost var before := players;
      players := FilterOut(players, [name]);
      scores := scores - {name};
      FilterOutMembers(before, name);
      NoDupIffMultiplicity(before);
      NoDupIffMultiplicity(players);
    }

    /** `selectGameType`. */
    method SelectGameType(gameTypeChosen: string)
      modifies this
      ensures gameType == gameTypeChosen
      ensures players == old(players) && scores == old(scores) && difficulty == old(difficulty)
      ensures cardCount == old(cardCount) && currentCards == old(currentCards)
      ensures currentCardIndex == old(currentCardIndex)
    {
      gameType := gameTypeChosen;
    }

    /** `selectDifficulty`. */
    method SelectDifficulty(difficultyChosen: int)
      modifies this
      ensures difficulty == difficultyChosen
      ensures players == old(players) && scores == old(scores) && gameType == old(gameType)
      ensures cardCount == old(cardCount) && currentCards == old(currentCards)
      ensures currentCardIndex == old(currentCardIndex)
    {
      difficulty := difficultyChosen;
    }

    /** `startGame`. With no player, nothing changes. Otherwise the card count
        is recorded first; when the deck of the chosen difficulty is not loaded
        the start stops there. Else a balanced deck for a target of `min(cardCount, pool)` cards is dealt from it (exactly
        that many when the target is at least 3), the cursor goes back to the
        first card, and every player's score is reset to 0. */
    method StartGame(cardCountInput: int, cardsData: Option<map<string, seq<Card>>>, random: nat -> real)
      returns (outcome: StartOutcome)
      requires Valid() && IsRandomStream(random)
      modifies this
      ensures Valid()
      ensures outcome != NeedTwoPlayers
      ensures outcome == NoPlayers <==> old(players) == []
      ensures players == old(players) && gameType == old(gameType) && difficulty == old(difficulty)
      ensures cardCount == if outcome == NoPlayers then old(cardCount) else cardCountInput
      ensures outcome != Started ==>
                scores == old(scores) && currentCards == old(currentCards)
                && currentCardIndex == old(currentCardIndex)
      ensures var key := DifficultyKey(gameType, difficulty);
              outcome == DataMissing <==>
                old(players) != [] && (key.None? || cardsData.None? || key.value !in cardsData.value)
      ensures outcome == Started ==>
                var pool := cardsData.value[DifficultyKey(gameType, difficulty).value];
                var target := Min(cardCountInput, |pool|);
                && currentCardIndex == 0
                && scores == (map p | p in Scored(players) :: 0)
                && multiset(currentCards) <= multiset(pool)
                && |currentCards| == DeckSize(pool, target)
                && (target >= 3 ==> |currentCards| == target)
                && (forall c :: c in MinorityOrder ==>
                      CategoryCount(currentCards, c) >= QuotaPicks(pool, target, c))
    {
      SecondGuardNeverFires(|players|);
      var check := StartValidation(|players|);
      if check.Some? {
        return check.value;
      }
      cardCount := cardCountInput;
      var key := DifficultyKey(gameType, difficulty);
      if key.None? || cardsData.None? || key.value !in cardsData.value {
        return DataMissing;
      }
      var allCards := cardsData.value[key.value];
      currentCards := SelectCardsWithBalance(allCards, Min(cardCount, |allCards|), random);
      if Min(cardCount, |allCards|) >= 3 {
        DeckSizeExact(allCards, Min(cardCount, |allCards|));
      }
      currentCardIndex := 0;
      ResetScores();
      outcome := Started;
    }

    /** `players.forEach(player => scores[player] = 0)` (src/game.js:202-204). */
    method ResetScores()
      requires Valid()
      modifies this
      ensures Valid()
      ensures scores == (map p | p in Scored(players) :: 0)
      ensures players == old(players) && gameType == old(gameType) && difficulty == old(difficulty)
      ensures cardCount == old(cardCount) && currentCards == old(currentCards)
      ensures currentCardIndex == old(currentCardIndex)
    {
      var i := 0;
      while i < |players|
        invariant 0 <= i <= |players|
        invariant players == old(players) && gameType == old(gameType) && difficulty == old(difficulty)
        invariant cardCount == old(cardCount) && currentCards == old(currentCards)
        invariant currentCardIndex == old(currentCardIndex)
        invariant scores.Keys == Scored(players)
        invariant forall k :: 0 <= k < i && players[k] != ProtoKey ==> scores[players[k]] == 0
      {
        if players[i] != ProtoKey {
          scores := scores[players[i] := 0];
        }
        i := i + 1;
      }
      forall p | p in scores ensures scores[p] == 0 {
        var k :| 0 <= k < |players| && players[k] == p;
      }
    }

    /** `displayCard`: the end screen once the cursor has passed the last card,
        otherwise the card under the cursor with its target. */
    function DisplayCard(permute: seq<string> -> seq<string>): (s: Screen)
      reads this
      ensures s.EndScreen? <==> currentCardIndex >= |currentCards|
      ensures s.CardScreen? ==> s.card in currentCards
    {
      if currentCardIndex >= |currentCards| then EndScreen
      else
        var card := currentCards[currentCardIndex];
        CardScreen(card, CardTarget(card, players, permute))
    }

    /** `handleSwipe`: a left swipe (a refusal) adds the card's sips to the
        score of one player drawn at random, whose name is returned; when that
        player is `__proto__` the write goes to the prototype setter and no
        score changes. A right swipe changes no score. Either way the cursor
        moves to the next card.
        A left swipe reads the card under the cursor and the roster, so it
        needs both. */
    method HandleSwipe(direction: Direction, draw: real) returns (penalized: Option<string>)
      requires Valid() && 0.0 <= draw < 1.0
      requires direction == Left ==> players != [] && currentCardIndex < |currentCards|
      modifies this
      ensures Valid()
      ensures currentCardIndex == old(currentCardIndex) + 1
      ensures direction == Right ==> penalized.None? && scores == old(scores)
      ensures direction == Left ==>
                var p := PenaltyRecipient(old(players), draw);
                && penalized == Some(p)
                && scores == if p == ProtoKey then old(scores)
                             else old(scores)[p := old(scores)[p] + old(currentCards)[old(currentCardIndex)].penaltySips]
      ensures scores.Keys == old(scores).Keys
      ensures forall q :: q in scores && Some(q) != penalized ==> scores[q] == old(scores)[q]
      ensures players == old(players) && gameType == old(gameType) && difficulty == old(difficulty)
      ensures cardCount == old(cardCount) && currentCards == old(currentCards)
    {
      penalized := None;
      if direction == Left {
        var card := currentCards[currentCardIndex];
        var randomPlayer := PenaltyRecipient(players, draw);
        if randomPlayer != ProtoKey {
          scores := scores[randomPlayer := scores[randomPlayer] + card.penaltySips];
        }
        penalized := Some(randomPlayer);
      }
      currentCardIndex := currentCardIndex + 1;
    }
  }

  /** Who stays after `removePlayer`: every other name, and not the removed one. */
  lemma FilterOutMembers(players: seq<string>, name: string)
    ensures name !in FilterOut(players, [name])
    ensures forall p :: p != name ==> (p in FilterOut(players, [name]) <==> p in players)
    ensures forall x :: multiset(FilterOut(players, [name]))[x] <= multiset(players)[x]
  {
    var r := FilterOut(players, [name]);
    assert multiset(r)[name] == 0;
    forall p | p != name ensures p in r <==> p in players {
      assert multiset(r)[p] == multiset(players)[p];
    }
  }
}
