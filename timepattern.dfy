/** The regular expression `pendant\s+(\d+)\s*(seconde|minute|s|m)` with the
    `i` flag, which both `categorizeAction` (src/game.js:21) and
    `getTimerDuration` (src/game.js:37) use. It is written as the matcher a
    regular-expression engine runs, one piece after the other with greedy
    quantifiers, and proved equal to the declarative reading of the pattern:
    "some choice of lengths fits". */
module TimePattern {
  import opened Runtime

  // ---------------------------------------------------------------------------
  // Comparing under the `i` flag

  /** The capital of an ASCII lower-case letter; other characters unchanged. */
  function AsciiUpper(p: char): char
  {
    if 'a' <= p <= 'z' then (p as int - 32) as char else p
  }

  /** How the `i` flag compares a text character with a lower-case ASCII letter
      of the pattern: both are upper-cased, and no character outside ASCII
      upper-cases into ASCII there, so the character is the letter or its
      capital. */
  predicate CaseMatch(c: char, p: char)
  {
    c == p || c == AsciiUpper(p)
  }

  /** The pattern word `word` stands at position `i` of `s` under the `i` flag,
      compared one character after the other. */
  predicate WordAt(s: string, i: nat, word: string)
    ensures WordAt(s, i, word) ==> i + |word| <= |s|
    decreases |s| - i
  {
    if word == [] then i <= |s|
    else i < |s| && CaseMatch(s[i], word[0]) && WordAt(s, i + 1, word[1..])
  }

  /** A word of lower-case ASCII letters, as every word of the pattern is. */
  predicate AsciiLowerWord(word: string)
  {
    forall k :: 0 <= k < |word| ==> 'a' <= word[k] <= 'z'
  }

  /** Against a lower-case ASCII letter, a character and its lower case compare
      alike. */
  lemma LowerCaseMatch(c: char, p: char)
    requires 'a' <= p <= 'z'
    ensures CaseMatch(Lower(c), p) <==> CaseMatch(c, p)
  {
  }

  // ---------------------------------------------------------------------------
  // The matcher

  const Pendant: string := "pendant"

  /** The alternatives of the second group, in the order the pattern tries them. */
  const UnitWords: seq<string> := ["seconde", "minute", "s", "m"]

  /** A match, as the spans of its two capture groups in the text: the digits
      `[amountStart, amountEnd)` and the unit `[unitStart, unitEnd)`. */
  datatype TimeMatch = TimeMatch(amountStart: nat, amountEnd: nat, unitStart: nat, unitEnd: nat)

  /** Length of the longest run of digits from `i` on: what a greedy `\d+`
      consumes (characterised by `DigitRunSpec`). White space has its own run,
      `SpaceRun`, which `trim` shares. */
  function DigitRun(s: string, i: nat): (n: nat)
    requires i <= |s|
    ensures i + n <= |s|
    decreases |s| - i
  {
    if i < |s| && IsDigit(s[i]) then 1 + DigitRun(s, i + 1) else 0
  }

  /** The alternation `(seconde|minute|s|m)` at position `k`: the index of the
      first alternative, from `from` on, that stands there. */
  function FirstAlternative(s: string, k: nat, alts: seq<string>, from: nat): (r: Option<nat>)
    requires from <= |alts|
    ensures r.Some? ==> from <= r.value < |alts| && WordAt(s, k, alts[r.value])
    decreases |alts| - from
  {
    if from == |alts| then None
    else if WordAt(s, k, alts[from]) then Some(from)
    else FirstAlternative(s, k, alts, from + 1)
  }

  /** The pattern tried at start position `i`: "pendant", then the rest. */
  function MatchTimeAt(s: string, i: nat): Option<TimeMatch>
  {
    if WordAt(s, i, Pendant) then MatchSpaces(s, i + |Pendant|) else None
  }

  /** `\s+` from position `a`, then the rest. */
  function MatchSpaces(s: string, a: nat): Option<TimeMatch>
    requires a <= |s|
  {
    var w := SpaceRun(s, a);
    if w == 0 then None else MatchDigits(s, a + w)
  }

  /** `(\d+)` from position `b`, then the rest. */
  function MatchDigits(s: string, b: nat): Option<TimeMatch>
    requires b <= |s|
  {
    var d := DigitRun(s, b);
    if d == 0 then None else MatchUnit(s, b, b + d)
  }

  /** `\s*(seconde|minute|s|m)` from position `e`, the digits `[b, e)` read. */
  function MatchUnit(s: string, b: nat, e: nat): Option<TimeMatch>
    requires b <= e <= |s|
  {
    var k := e + SpaceRun(s, e);
    match FirstAlternative(s, k, UnitWords, 0)
    case None => None
    case Some(j) => Some(TimeMatch(b, e, k, k + |UnitWords[j]|))
  }

  /** The leftmost position in [from, |s|] where the matcher succeeds, trying
      start positions from left to right as `String.prototype.match` does. */
  function FirstTimeIndex(s: string, from: nat): (r: Option<nat>)
    requires from <= |s|
    ensures r.Some? ==> from <= r.value <= |s| && MatchTimeAt(s, r.value).Some?
    ensures forall j :: from <= j <= |s| && (r.None? || j < r.value) ==> !MatchTimeAt(s, j).Some?
    decreases |s| - from
  {
    if MatchTimeAt(s, from).Some? then Some(from)
    else if from == |s| then None
    else FirstTimeIndex(s, from + 1)
  }

  /** The match `text.match(/pendant\s+(\d+)\s*(seconde|minute|s|m)/i)` returns. */
  function TimeMatchOf(s: string): Option<TimeMatch>
  {
    match FirstTimeIndex(s, 0)
    case None => None
    case Some(i) => MatchTimeAt(s, i)
  }

  /** Every character in [lo, hi) is a digit. */
  predicate DigitsIn(s: string, lo: nat, hi: nat)
  {
    hi <= |s| && forall j {:trigger IsDigit(s[j])} :: lo <= j < hi ==> IsDigit(s[j])
  }

  /** A range of digits, cut out, is a string of digits. */
  lemma DigitsInSlice(s: string, lo: nat, hi: nat)
    requires lo <= hi && DigitsIn(s, lo, hi)
    ensures AllDigits(s[lo..hi])
  {
    var digits := s[lo..hi];
    forall k | 0 <= k < |digits| ensures IsDigit(digits[k]) {
      assert digits[k] == s[lo + k];
    }
  }

  // ---------------------------------------------------------------------------
  // The declarative reading, piece by piece from the right: for SOME choice of
  // the lengths `w`, `d` and `w2`, as a backtracking matcher may pick them.

  /** One of the unit words stands at `k`. */
  ghost predicate UnitAt(s: string, k: nat)
  {
    exists j :: 0 <= j < |UnitWords| && WordAt(s, k, UnitWords[j])
  }

  /** `\s*` as `w2` spaces from `e`, then one of the unit words. */
  ghost predicate UnitTail(s: string, e: nat, w2: nat)
  {
    && e + w2 <= |s|
    && SpacesIn(s, e, e + w2)
    && UnitAt(s, e + w2)
  }

  /** `\d+` as `d >= 1` digits from `b`, then the unit tail. */
  ghost predicate DigitTail(s: string, b: nat, d: nat, w2: nat)
  {
    && 1 <= d && b + d <= |s|
    && DigitsIn(s, b, b + d)
    && UnitTail(s, b + d, w2)
  }

  /** `\s+` as `w >= 1` spaces from `a`, then the digit tail. */
  ghost predicate SpaceTail(s: string, a: nat, w: nat, d: nat, w2: nat)
  {
    && 1 <= w && a + w <= |s|
    && SpacesIn(s, a, a + w)
    && DigitTail(s, a + w, d, w2)
  }

  /** The whole pattern at `i` with the given split. */
  ghost predicate TimePhraseSplit(s: string, i: nat, w: nat, d: nat, w2: nat)
  {
    WordAt(s, i, Pendant) && SpaceTail(s, i + |Pendant|, w, d, w2)
  }

  ghost predicate TimePhraseAt(s: string, i: nat)
  {
    exists w: nat, d: nat, w2: nat :: TimePhraseSplit(s, i, w, d, w2)
  }

  /** The text contains the time phrase somewhere. */
  ghost predicate HasTimePhrase(s: string)
  {
    exists i: nat :: TimePhraseAt(s, i)
  }

  // ---------------------------------------------------------------------------
  // The greedy pieces

  /** The run is all digits and stops at the end of the text or at a
      character that is not a digit. */
  lemma {:induction false} DigitRunSpec(s: string, i: nat)
    requires i <= |s|
    ensures DigitsIn(s, i, i + DigitRun(s, i))
    ensures i + DigitRun(s, i) == |s| || !IsDigit(s[i + DigitRun(s, i)])
    decreases |s| - i
  {
    if i < |s| && IsDigit(s[i]) {
      DigitRunSpec(s, i + 1);
    }
  }

  /** A run that stops where the class stops is the greedy run: backtracking
      never finds another length that the next piece of the pattern accepts
      (`SpaceRunExact` is the same for white space). */
  lemma {:induction false} DigitRunExact(s: string, i: nat, n: nat)
    requires i + n <= |s|
    requires DigitsIn(s, i, i + n)
    requires i + n == |s| || !IsDigit(s[i + n])
    ensures DigitRun(s, i) == n
    decreases n
  {
    if n > 0 {
      DigitRunExact(s, i + 1, n - 1);
    }
  }

  /** No alternative before the chosen one stands at `k`, and none at all when
      nothing is chosen. */
  lemma {:induction false} FirstAlternativeSpec(s: string, k: nat, alts: seq<string>, from: nat)
    requires from <= |alts|
    ensures var r := FirstAlternative(s, k, alts, from);
            forall j :: from <= j < |alts| && (r.None? || j < r.value) ==> !WordAt(s, k, alts[j])
    decreases |alts| - from
  {
    if from < |alts| && !WordAt(s, k, alts[from]) {
      FirstAlternativeSpec(s, k, alts, from + 1);
    }
  }

  /** A unit word starts with `s` or `m`, which is neither a space nor a digit. */
  lemma UnitStartsWithLetter(s: string, k: nat)
    requires UnitAt(s, k)
    ensures k < |s| && (CaseMatch(s[k], 's') || CaseMatch(s[k], 'm'))
    ensures !IsSpace(s[k]) && !IsDigit(s[k])
  {
    var j :| 0 <= j < |UnitWords| && WordAt(s, k, UnitWords[j]);
    assert CaseMatch(s[k], UnitWords[j][0]);
  }

  // ---------------------------------------------------------------------------
  // Each piece of the matcher against its declarative reading

  /** What `\s*(seconde|minute|s|m)` accepts from `e` is a unit tail with the
      greedy space count, and the second group is the first unit word that
      stands there. */
  lemma MatchUnitSound(s: string, b: nat, e: nat)
    requires b <= e <= |s| && MatchUnit(s, b, e).Some?
    ensures UnitTail(s, e, SpaceRun(s, e))
    ensures var m := MatchUnit(s, b, e).value;
            && m.amountStart == b && m.amountEnd == e && m.unitStart == e + SpaceRun(s, e)
            && exists j :: 0 <= j < |UnitWords| && WordAt(s, m.unitStart, UnitWords[j])
                           && m.unitEnd == m.unitStart + |UnitWords[j]|
  {
    SpaceRunSpec(s, e);
  }

  /** Every unit tail is accepted, and the greedy space count is its count. */
  lemma MatchUnitComplete(s: string, b: nat, e: nat, w2: nat)
    requires b <= e && UnitTail(s, e, w2)
    ensures SpaceRun(s, e) == w2
    ensures MatchUnit(s, b, e).Some?
  {
    UnitStartsWithLetter(s, e + w2);
    SpaceRunExact(s, e, w2);
    FirstAlternativeSpec(s, e + w2, UnitWords, 0);
  }

  /** What `(\d+)` and the rest accept from `b` is a digit tail with the greedy
      counts, and the first group is the digit run. */
  lemma MatchDigitsSound(s: string, b: nat)
    requires b <= |s| && MatchDigits(s, b).Some?
    ensures var d := DigitRun(s, b);
            && DigitTail(s, b, d, SpaceRun(s, b + d))
            && MatchDigits(s, b) == MatchUnit(s, b, b + d)
  {
    DigitRunSpec(s, b);
    MatchUnitSound(s, b, b + DigitRun(s, b));
  }

  lemma MatchDigitsComplete(s: string, b: nat, d: nat, w2: nat)
    requires DigitTail(s, b, d, w2)
    ensures DigitRun(s, b) == d && SpaceRun(s, b + d) == w2
    ensures MatchDigits(s, b).Some?
    ensures MatchDigits(s, b) == MatchUnit(s, b, b + d)
  {
    UnitStartsWithLetter(s, b + d + w2);
    if w2 > 0 {
      assert IsSpace(s[b + d]);
    }
    DigitRunExact(s, b, d);
    MatchUnitComplete(s, b, b + d, w2);
  }

  /** What `\s+` and the rest accept from `a` is a space tail with the greedy
      counts. */
  lemma MatchSpacesSound(s: string, a: nat)
    requires a <= |s| && MatchSpaces(s, a).Some?
    ensures var w := SpaceRun(s, a);
            var d := DigitRun(s, a + w);
            && SpaceTail(s, a, w, d, SpaceRun(s, a + w + d))
            && MatchSpaces(s, a) == MatchUnit(s, a + w, a + w + d)
  {
    SpaceRunSpec(s, a);
    MatchDigitsSound(s, a + SpaceRun(s, a));
  }

  lemma MatchSpacesComplete(s: string, a: nat, w: nat, d: nat, w2: nat)
    requires SpaceTail(s, a, w, d, w2)
    ensures SpaceRun(s, a) == w && DigitRun(s, a + w) == d && SpaceRun(s, a + w + d) == w2
    ensures MatchSpaces(s, a).Some?
    ensures MatchSpaces(s, a) == MatchUnit(s, a + w, a + w + d)
  {
    assert IsDigit(s[a + w]);
    SpaceRunExact(s, a, w);
    MatchDigitsComplete(s, a + w, d, w2);
  }

  // ---------------------------------------------------------------------------
  // The whole pattern

  /** What `\s+(\d+)\s*(seconde|minute|s|m)` returns from `a`, in terms of its
      groups: the split they give is a space tail, and the unit starts with
      `s` or `m`. */
  lemma MatchSpacesGroups(s: string, a: nat)
    requires a <= |s| && MatchSpaces(s, a).Some?
    ensures var m := MatchSpaces(s, a).value;
            && a < m.amountStart < m.amountEnd <= m.unitStart < m.unitEnd <= |s|
            && SpaceTail(s, a, m.amountStart - a, m.amountEnd - m.amountStart, m.unitStart - m.amountEnd)
            && (CaseMatch(s[m.unitStart], 's') || CaseMatch(s[m.unitStart], 'm'))
  {
    MatchSpacesSound(s, a);
    var w := SpaceRun(s, a);
    var d := DigitRun(s, a + w);
    var w2 := SpaceRun(s, a + w + d);
    MatchUnitSound(s, a + w, a + w + d);
    var m := MatchSpaces(s, a).value;
    assert m.amountStart == a + w && m.amountEnd == a + w + d && m.unitStart == a + w + d + w2;
    UnitStartsWithLetter(s, m.unitStart);
  }

  /** What the matcher returns at `i` is a match of the pattern: the split given
      by its groups holds, the first group is a non-empty run of digits and the
      second group is a unit word starting with `s` or `m`. */
  lemma MatchTimeAtSound(s: string, i: nat)
    requires MatchTimeAt(s, i).Some?
    ensures var m := MatchTimeAt(s, i).value;
            && i + |Pendant| < m.amountStart < m.amountEnd <= m.unitStart < m.unitEnd <= |s|
            && TimePhraseSplit(s, i, m.amountStart - (i + |Pendant|),
                               m.amountEnd - m.amountStart, m.unitStart - m.amountEnd)
            && (CaseMatch(s[m.unitStart], 's') || CaseMatch(s[m.unitStart], 'm'))
    ensures TimePhraseAt(s, i)
  {
    MatchSpacesGroups(s, i + |Pendant|);
    var m := MatchTimeAt(s, i).value;
    assert TimePhraseSplit(s, i, m.amountStart - (i + |Pendant|),
                           m.amountEnd - m.amountStart, m.unitStart - m.amountEnd);
  }

  /** Whenever the pattern matches at `i`, for whatever split, the matcher
      succeeds there, and its groups are that split's digits and unit:
      backtracking could not have found another split. */
  lemma MatchTimeAtComplete(s: string, i: nat, w: nat, d: nat, w2: nat)
    requires TimePhraseSplit(s, i, w, d, w2)
    ensures MatchTimeAt(s, i).Some?
    ensures var m := MatchTimeAt(s, i).value;
            && m.amountStart == i + |Pendant| + w
            && m.amountEnd == i + |Pendant| + w + d
            && m.unitStart == i + |Pendant| + w + d + w2
  {
    MatchSpacesComplete(s, i + |Pendant|, w, d, w2);
    MatchUnitSound(s, i + |Pendant| + w, i + |Pendant| + w + d);
  }

  /** The matcher succeeds at `i` exactly where the pattern matches there. */
  lemma MatchTimeAtIff(s: string, i: nat)
    ensures MatchTimeAt(s, i).Some? <==> TimePhraseAt(s, i)
  {
    if MatchTimeAt(s, i).Some? {
      MatchTimeAtSound(s, i);
    }
    if TimePhraseAt(s, i) {
      var w: nat, d: nat, w2: nat :| TimePhraseSplit(s, i, w, d, w2);
      MatchTimeAtComplete(s, i, w, d, w2);
    }
  }

  /** The search finds a match exactly when the text contains the phrase, and
      the match it finds is at the leftmost position where the phrase stands. */
  lemma TimeMatchOfSpec(s: string)
    ensures TimeMatchOf(s).Some? <==> HasTimePhrase(s)
    ensures TimeMatchOf(s).Some? ==>
              var i := FirstTimeIndex(s, 0).value;
              && TimeMatchOf(s) == MatchTimeAt(s, i)
              && TimePhraseAt(s, i)
              && forall j: nat :: j < i ==> !TimePhraseAt(s, j)
  {
    var f := FirstTimeIndex(s, 0);
    if f.Some? {
      MatchTimeAtIff(s, f.value);
      forall j: nat | j < f.value ensures !TimePhraseAt(s, j) {
        MatchTimeAtIff(s, j);
      }
    } else {
      forall i: nat ensures !TimePhraseAt(s, i) {
        MatchTimeAtIff(s, i);
        if i > |s| {
          assert !WordAt(s, i, Pendant);
        }
      }
    }
  }

  // ---------------------------------------------------------------------------
  // The `i` flag: a text and its lower case match at the same places

  /** Two texts that lower-case alike, character by character. */
  predicate LowerAlike(s: string, t: string)
  {
    |s| == |t| && forall j :: 0 <= j < |s| ==> Lower(s[j]) == Lower(t[j])
  }

  /** A text lower-cases like its lower case. */
  lemma LowerTextAlike(s: string)
    ensures LowerAlike(s, LowerText(s))
  {
  }

  /** Characters that lower-case alike are both white space or neither, and
      both digits or neither. */
  lemma ClassesAlike(c: char, d: char)
    requires Lower(c) == Lower(d)
    ensures IsSpace(c) == IsSpace(d) && IsDigit(c) == IsDigit(d)
  {
    LowerKeepsClasses(c);
    LowerKeepsClasses(d);
  }

  lemma SpacesAlike(s: string, t: string, lo: nat, hi: nat)
    requires LowerAlike(s, t)
    ensures SpacesIn(t, lo, hi) <==> SpacesIn(s, lo, hi)
  {
    forall j | lo <= j < hi <= |s| ensures IsSpace(s[j]) == IsSpace(t[j]) {
      ClassesAlike(s[j], t[j]);
    }
  }

  lemma DigitsAlike(s: string, t: string, lo: nat, hi: nat)
    requires LowerAlike(s, t)
    ensures DigitsIn(t, lo, hi) <==> DigitsIn(s, lo, hi)
  {
    forall j | lo <= j < hi <= |s| ensures IsDigit(s[j]) == IsDigit(t[j]) {
      ClassesAlike(s[j], t[j]);
    }
  }

  /** A word of the pattern stands at the same places in two texts that
      lower-case alike. */
  lemma {:induction false} WordAtAlike(s: string, t: string, k: nat, u: string)
    requires LowerAlike(s, t) && AsciiLowerWord(u)
    ensures WordAt(t, k, u) <==> WordAt(s, k, u)
    decreases |u|
  {
    if u != [] && k < |s| {
      LowerCaseMatch(s[k], u[0]);
      LowerCaseMatch(t[k], u[0]);
      assert AsciiLowerWord(u[1..]) by {
        forall m | 0 <= m < |u| - 1 ensures 'a' <= u[1..][m] <= 'z' {
          assert u[1..][m] == u[m + 1];
        }
      }
      WordAtAlike(s, t, k + 1, u[1..]);
    }
  }

  lemma UnitWordsLower()
    ensures forall j :: 0 <= j < |UnitWords| ==> AsciiLowerWord(UnitWords[j])
  {
  }

  lemma UnitTailAlike(s: string, t: string, e: nat, w2: nat)
    requires LowerAlike(s, t)
    ensures UnitTail(t, e, w2) <==> UnitTail(s, e, w2)
  {
    SpacesAlike(s, t, e, e + w2);
    UnitWordsLower();
    forall j | 0 <= j < |UnitWords|
      ensures WordAt(t, e + w2, UnitWords[j]) <==> WordAt(s, e + w2, UnitWords[j])
    {
      WordAtAlike(s, t, e + w2, UnitWords[j]);
    }
  }

  lemma DigitTailAlike(s: string, t: string, b: nat, d: nat, w2: nat)
    requires LowerAlike(s, t)
    ensures DigitTail(t, b, d, w2) <==> DigitTail(s, b, d, w2)
  {
    DigitsAlike(s, t, b, b + d);
    UnitTailAlike(s, t, b + d, w2);
  }

  lemma SpaceTailAlike(s: string, t: string, a: nat, w: nat, d: nat, w2: nat)
    requires LowerAlike(s, t)
    ensures SpaceTail(t, a, w, d, w2) <==> SpaceTail(s, a, w, d, w2)
  {
    SpacesAlike(s, t, a, a + w);
    DigitTailAlike(s, t, a + w, d, w2);
  }

  lemma SplitAlike(s: string, t: string, i: nat, w: nat, d: nat, w2: nat)
    requires LowerAlike(s, t)
    ensures TimePhraseSplit(t, i, w, d, w2) <==> TimePhraseSplit(s, i, w, d, w2)
  {
    WordAtAlike(s, t, i, Pendant);
    SpaceTailAlike(s, t, i + |Pendant|, w, d, w2);
  }

  /** Lower-casing the text first does not change where the phrase matches. */
  lemma TimePhraseIgnoresCase(s: string, i: nat)
    ensures TimePhraseAt(LowerText(s), i) <==> TimePhraseAt(s, i)
  {
    LowerTextAlike(s);
    forall w: nat, d: nat, w2: nat
      ensures TimePhraseSplit(LowerText(s), i, w, d, w2) <==> TimePhraseSplit(s, i, w, d, w2)
    {
      SplitAlike(s, LowerText(s), i, w, d, w2);
    }
  }
}
