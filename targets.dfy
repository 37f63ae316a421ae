/** Who a card is addressed to: `getRandomPlayers` (src/game.js:46-50),
    `createTeams` (src/game.js:52-59) and the deck key of the chosen difficulty
    (`getDifficultyKey`, src/game.js:121-127). */
module Targets {
  import opened Runtime
  import opened Collections

  /** What `[...xs].sort(() => Math.random() - 0.5)` may return: the comparator
      is not consistent, so all that is known is that some reordering comes
      back. */
  ghost predicate IsPermuter(permute: seq<string> -> seq<string>)
  {
    forall s :: multiset(permute(s)) == multiset(s)
  }

  /** `getRandomPlayers(count, exclude)`: the roster without the excluded names,
      reordered, cut to its first `count` names. */
  function GetRandomPlayers(players: seq<string>, count: int, exclude: seq<string>,
                            permute: seq<string> -> seq<string>): seq<string>
  {
    var available := FilterOut(players, exclude);
    var shuffled := permute(available);
    SlicePrefix(shuffled, count)
  }

  /** The names drawn are `min(count, available)` roster members outside
      `exclude`, and distinct when the roster is. */
  lemma GetRandomPlayersSpec(players: seq<string>, count: int, exclude: seq<string>,
                             permute: seq<string> -> seq<string>)
    requires IsPermuter(permute)
    ensures var r := GetRandomPlayers(players, count, exclude, permute);
            && (count >= 0 ==> |r| == Min(count, |FilterOut(players, exclude)|))
            && (forall p :: p in r ==> p in players && p !in exclude)
            && (NoDup(players) ==> NoDup(r))
  {
    var available := FilterOut(players, exclude);
    var shuffled := permute(available);
    PrefixOfReordering(available, shuffled, count);
    FilterOutSpec(players, exclude);
    if NoDup(players) {
      NoDupIffMultiplicity(players);
      NoDupIffMultiplicity(available);
      NoDupPermutation(available, shuffled);
      NoDupPrefix(shuffled, SliceEnd(|shuffled|, count));
    }
  }

  /** A cut of a reordering of `available`: `min(count, |available|)` of its
      names, each one of them. */
  lemma PrefixOfReordering(available: seq<string>, shuffled: seq<string>, count: int)
    requires multiset(shuffled) == multiset(available)
    ensures count >= 0 ==> |SlicePrefix(shuffled, count)| == Min(count, |available|)
    ensures forall p :: p in SlicePrefix(shuffled, count) ==> p in available
  {
    var r := SlicePrefix(shuffled, count);
    assert |shuffled| == |available| by {
      assert |multiset(shuffled)| == |multiset(available)|;
    }
    forall p | p in r ensures p in available {
      assert p in shuffled;
      assert p in multiset(shuffled);
    }
  }

  /** The two halves `createTeams` returns. */
  datatype Teams = Teams(team1: seq<string>, team2: seq<string>)

  /** `createTeams`: the roster reordered and split at `Math.ceil(n / 2)`. */
  function CreateTeams(players: seq<string>, permute: seq<string> -> seq<string>): Teams
  {
    var shuffled := permute(players);
    var mid := (|shuffled| + 1) / 2;
    Teams(shuffled[..mid], shuffled[mid..])
  }

  /** The two teams together are the roster, in some order; the first team has
      `ceil(n/2)` players and the second `floor(n/2)`, so with a duplicate-free
      roster nobody is in both. */
  lemma CreateTeamsSpec(players: seq<string>, permute: seq<string> -> seq<string>)
    requires IsPermuter(permute)
    ensures var t := CreateTeams(players, permute);
            && multiset(t.team1 + t.team2) == multiset(players)
            && |t.team1| == (|players| + 1) / 2
            && |t.team2| == |players| / 2
            && (NoDup(players) ==> forall p :: p in t.team1 ==> p !in t.team2)
  {
    var shuffled := permute(players);
    assert |shuffled| == |players| by {
      assert |multiset(shuffled)| == |multiset(players)|;
    }
    var t := CreateTeams(players, permute);
    assert t.team1 + t.team2 == shuffled;
    if NoDup(players) {
      NoDupPermutation(players, shuffled);
      forall p | p in t.team1 ensures p !in t.team2 {
        var i :| 0 <= i < |t.team1| && t.team1[i] == p;
      }
    }
  }

  // ---------------------------------------------------------------------------
  // getDifficultyKey

  const CasualKeys: seq<string> := ["facile", "moyen", "difficile"]

  /** `getDifficultyKey`: the casual levels 1-3 name their deck; any other
      level of the casual game indexes past the array and yields `undefined`
      (`None`); the other game type names `caliente` followed by the level. */
  function DifficultyKey(gameType: string, difficulty: int): Option<string>
  {
    if gameType == "casual" then
      if 1 <= difficulty <= |CasualKeys| then Some(CasualKeys[difficulty - 1]) else None
    else Some("caliente" + IntString(difficulty))
  }

  /** A key exists exactly for the casual levels 1 to 3 and for every level of
      the other game type, and different levels never share a deck key. */
  lemma DifficultyKeySpec(gameType: string, d1: int, d2: int)
    ensures DifficultyKey(gameType, d1).Some? <==> (gameType != "casual" || 1 <= d1 <= 3)
    ensures DifficultyKey(gameType, d1).Some? && DifficultyKey(gameType, d1) == DifficultyKey(gameType, d2)
            ==> d1 == d2
  {
    if gameType != "casual" && DifficultyKey(gameType, d1) == DifficultyKey(gameType, d2) {
      var p := "caliente";
      assert IntString(d1) == ("caliente" + IntString(d1))[|p|..];
      assert IntString(d2) == ("caliente" + IntString(d2))[|p|..];
      IntStringInjective(d1, d2);
    }
  }

  /** `${n}` tells integers apart. */
  lemma IntStringInjective(a: int, b: int)
    requires IntString(a) == IntString(b)
    ensures a == b
  {
    IntStringSign(a);
    IntStringSign(b);
    if a < 0 {
      assert DecimalString(-a) == IntString(a)[1..] == DecimalString(-b);
      DecimalRoundTrip(-a);
      DecimalRoundTrip(-b);
    } else {
      DecimalRoundTrip(a);
      DecimalRoundTrip(b);
    }
  }

  /** `${n}` starts with a minus sign exactly for negative integers. */
  lemma IntStringSign(n: int)
    ensures IntString(n)[0] == '-' <==> n < 0
  {
    if n >= 0 {
      assert IsDigit(DecimalString(n)[0]);
    }
  }
}
