/** Card classification (`categorizeAction`, src/game.js:18-34) and the timer
    read from a card (`getTimerDuration`, src/game.js:36-44). */
module Categorizer {
  import opened Runtime
  import opened TimePattern

  /** A card of the deck: its text and the sips drunk when it is refused. */
  datatype Card = Card(text: string, penaltySips: int)

  /** The four tags `categorizeAction` returns: `'single'`, `'time-based'`,
      `'duel-1v1'` and `'group-duel'`. */
  datatype Category = Single | TimeBased | Duel1v1 | GroupDuel

  // ---------------------------------------------------------------------------
  // Keywords

  const DuelKeywords: seq<string> :=
    ["vs", "versus", "contre", "duel", "battle", "challenge", "race", "qui", "compare", "plus", "meilleur"]

  const GroupKeywords: seq<string> :=
    ["chaque joueur", "tous les", "group", "team", "\U{00E9}quipe", "ensemble", "tout le monde"]

  /** Substring search, trying start positions from left to right. */
  function Contains(s: string, k: string): bool
    decreases |s|
  {
    if |k| > |s| then false
    else if s[..|k|] == k then true
    else Contains(s[1..], k)
  }

  /** A regular-expression alternation of plain words: some word occurs. */
  function ContainsAny(s: string, words: seq<string>): bool
  {
    exists k :: k in words && Contains(s, k)
  }

  predicate OccursAt(s: string, k: string, i: nat)
  {
    i + |k| <= |s| && s[i..i + |k|] == k
  }

  /** The substring search agrees with "some position holds the word". */
  lemma {:induction false} ContainsSpec(s: string, k: string)
    ensures Contains(s, k) <==> exists i: nat :: OccursAt(s, k, i)
    decreases |s|
  {
    if |k| <= |s| && s[..|k|] != k {
      ContainsSpec(s[1..], k);
      if Contains(s[1..], k) {
        var i: nat :| OccursAt(s[1..], k, i);
        assert s[i + 1..i + 1 + |k|] == s[1..][i..i + |k|];
        assert OccursAt(s, k, i + 1);
      }
      if exists i: nat :: OccursAt(s, k, i) {
        var i: nat :| OccursAt(s, k, i);
        assert i != 0;
        assert s[1..][i - 1..i - 1 + |k|] == s[i..i + |k|];
        assert OccursAt(s[1..], k, i - 1);
      }
    } else if |k| <= |s| {
      assert OccursAt(s, k, 0);
    }
  }

  /** One of `words` occurs in the lower-cased `text`. */
  ghost predicate MentionsAny(text: string, words: seq<string>)
  {
    exists k, i: nat :: k in words && OccursAt(LowerText(text), k, i)
  }

  // ---------------------------------------------------------------------------
  // categorizeAction

  /** `categorizeAction`: the time phrase first, then the duel words, then the
      group words, else `single`. */
  function Categorize(text: string): Category
  {
    var lowerText := LowerText(text);
    if TimeMatchOf(lowerText).Some? then TimeBased
    else if ContainsAny(lowerText, DuelKeywords) then Duel1v1
    else if ContainsAny(lowerText, GroupKeywords) then GroupDuel
    else Single
  }

  /** The category of a card. */
  function CardCategory(card: Card): Category
  {
    Categorize(card.text)
  }

  /** The four tags in their priority order, each an if-and-only-if against the
      declarative phrase and keyword tests: the time phrase wins even when duel
      or group words are present, and a keyword is a plain substring. */
  lemma CategorizePriority(text: string)
    ensures Categorize(text) == TimeBased <==> HasTimePhrase(text)
    ensures Categorize(text) == Duel1v1 <==>
              !HasTimePhrase(text) && MentionsAny(text, DuelKeywords)
    ensures Categorize(text) == GroupDuel <==>
              !HasTimePhrase(text) && !MentionsAny(text, DuelKeywords) && MentionsAny(text, GroupKeywords)
    ensures Categorize(text) == Single <==>
              !HasTimePhrase(text) && !MentionsAny(text, DuelKeywords) && !MentionsAny(text, GroupKeywords)
  {
    var t := LowerText(text);
    TimeMatchOfSpec(t);
    forall i: nat ensures TimePhraseAt(t, i) <==> TimePhraseAt(text, i) {
      TimePhraseIgnoresCase(text, i);
    }
    forall k: string ensures Contains(t, k) <==> exists i: nat :: OccursAt(t, k, i) {
      ContainsSpec(t, k);
    }
  }

  // ---------------------------------------------------------------------------
  // getTimerDuration

  /** The factor the first letter of the unit stands for: minutes or seconds. */
  function UnitFactor(unitLetter: char): nat
  {
    if Lower(unitLetter) == 'm' then 60 else 1
  }

  /** The groups of a match lie inside the text, and the first is all digits. */
  lemma TimerGroups(text: string)
    ensures TimeMatchOf(text).Some? ==>
              var m := TimeMatchOf(text).value;
              && m.amountStart <= m.amountEnd <= m.unitStart < |text|
              && AllDigits(text[m.amountStart..m.amountEnd])
  {
    if TimeMatchOf(text).Some? {
      MatchGroups(text, FirstTimeIndex(text, 0).value);
    }
  }

  lemma MatchGroups(text: string, i: nat)
    requires MatchTimeAt(text, i).Some?
    ensures var m := MatchTimeAt(text, i).value;
            && m.amountStart <= m.amountEnd <= m.unitStart < |text|
            && AllDigits(text[m.amountStart..m.amountEnd])
  {
    MatchTimeAtSound(text, i);
    var m := MatchTimeAt(text, i).value;
    DigitsInSlice(text, m.amountStart, m.amountEnd);
  }

  /** `getTimerDuration`: the number after "pendant" in seconds, or 30 when the
      text holds no time phrase. */
  function TimerDuration(text: string): nat
  {
    match TimeMatchOf(text)
    case None => 30
    case Some(m) =>
      TimerGroups(text);
      DecimalValue(text[m.amountStart..m.amountEnd]) * UnitFactor(text[m.unitStart])
  }

  /** The duration read from a card: 30 when there is no phrase; otherwise, at
      the leftmost position where the phrase stands and for any split of its
      spaces and digits there, the digits in seconds, times 60 when the unit
      begins with `m` or `M`. */
  lemma TimerDurationSpec(text: string)
    ensures !HasTimePhrase(text) ==> TimerDuration(text) == 30
    ensures forall i: nat, w: nat, d: nat, w2: nat ::
              TimePhraseSplit(text, i, w, d, w2) && (forall j: nat :: j < i ==> !TimePhraseAt(text, j)) ==>
                var a := i + |Pendant|;
                && AllDigits(text[a + w..a + w + d])
                && TimerDuration(text) == DecimalValue(text[a + w..a + w + d]) * UnitFactor(text[a + w + d + w2])
  {
    TimeMatchOfSpec(text);
    forall i: nat, w: nat, d: nat, w2: nat |
      TimePhraseSplit(text, i, w, d, w2) && (forall j: nat :: j < i ==> !TimePhraseAt(text, j))
      ensures AllDigits(text[i + |Pendant| + w..i + |Pendant| + w + d])
      ensures TimerDuration(text) ==
              DecimalValue(text[i + |Pendant| + w..i + |Pendant| + w + d])
              * UnitFactor(text[i + |Pendant| + w + d + w2])
    {
      TimerDurationAt(text, i, w, d, w2);
    }
  }

  /** The duration for one split at the leftmost phrase position. */
  lemma TimerDurationAt(text: string, i: nat, w: nat, d: nat, w2: nat)
    requires TimePhraseSplit(text, i, w, d, w2)
    requires forall j: nat :: j < i ==> !TimePhraseAt(text, j)
    ensures AllDigits(text[i + |Pendant| + w..i + |Pendant| + w + d])
    ensures TimerDuration(text) ==
            DecimalValue(text[i + |Pendant| + w..i + |Pendant| + w + d])
            * UnitFactor(text[i + |Pendant| + w + d + w2])
  {
    LeftmostMatch(text, i, w, d, w2);
    TimerDurationOfGroups(text, i, w, d, w2);
  }

  /** The duration read from the groups the search returns: the amount group
      holds digits only, and its value is scaled by the unit's first letter. */
  lemma TimerDurationOfGroups(text: string, i: nat, w: nat, d: nat, w2: nat)
    requires TimeMatchOf(text).Some?
    requires var m := TimeMatchOf(text).value;
             && m.amountStart == i + |Pendant| + w
             && m.amountEnd == i + |Pendant| + w + d
             && m.unitStart == i + |Pendant| + w + d + w2
    ensures AllDigits(text[i + |Pendant| + w..i + |Pendant| + w + d])
    ensures TimerDuration(text) ==
            DecimalValue(text[i + |Pendant| + w..i + |Pendant| + w + d])
            * UnitFactor(text[i + |Pendant| + w + d + w2])
  {
    TimerGroups(text);
  }

  /** At the leftmost phrase position the search returns the groups of the split. */
  lemma LeftmostMatch(text: string, i: nat, w: nat, d: nat, w2: nat)
    requires TimePhraseSplit(text, i, w, d, w2)
    requires forall j: nat :: j < i ==> !TimePhraseAt(text, j)
    ensures TimeMatchOf(text).Some?
    ensures var m := TimeMatchOf(text).value;
            && m.amountStart == i + |Pendant| + w
            && m.amountEnd == i + |Pendant| + w + d
            && m.unitStart == i + |Pendant| + w + d + w2
  {
    MatchTimeAtComplete(text, i, w, d, w2);
    var f := FirstTimeIndex(text, 0);
    assert f.Some? && f.value <= i;
    MatchTimeAtSound(text, f.value);
    assert f.value == i;
  }

  /** A card tagged time-based is exactly one whose timer finds a phrase, so it
      never gets the fallback duration unless its digits say so. */
  lemma TimeBasedHasOwnDuration(text: string)
    ensures Categorize(text) == TimeBased <==> TimeMatchOf(text).Some?
    ensures Categorize(text) != TimeBased ==> TimerDuration(text) == 30
  {
    CategorizePriority(text);
    TimeMatchOfSpec(text);
  }
}
