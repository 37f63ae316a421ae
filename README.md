# drinkingue: the game logic of src/game.js, in Dafny

drinkingue is a drinking card game played in the browser. Players are added to
a roster. A game type (`casual` or the other one, `caliente`) and a difficulty
are chosen. A game then deals a deck of action cards from the deck of that
difficulty. Each card is classified by its French text:

- a time-limited challenge ("pendant 30 secondes");
- a one-on-one duel;
- a group challenge;
- a single-player dare.

The dealer takes a quota of each of the three minority categories first: a
tenth of the requested card count, rounded up, and at least one card, or every
card of that category when the pool has fewer. Every card is shown with its
target: a random player, a timer, two duellists, or two teams. Swiping a card
left refuses it, and the sips it is worth are added to the score of a player
drawn at random. Swiping right accepts it.

This project models that logic and proves what it guarantees.

- `runtime.dfy` (module `Runtime`): the pieces of the JavaScript runtime the game
  relies on, with their edge cases written out: `slice(0, end)` with a negative
  end, `trim` over the ECMAScript white-space set, `Math.ceil(n * 0.10)`,
  `Math.floor(Math.random() * n)`, `toLowerCase`, `${n}`, and `filter` with
  `includes`.
- `collections.dfy` (module `Collections`): duplicate-free sequences, used for the
  roster.
- `timepattern.dfy` (module `TimePattern`): the regular expression
  `pendant\s+(\d+)\s*(seconde|minute|s|m)` with the `i` flag. It is written as a
  greedy matcher, which is proved to agree with a declarative statement of the
  pattern. Backtracking cannot change the outcome, and the match does not depend
  on letter case.
- `categorizer.dfy` (module `Categorizer`): `categorizeAction` and
  `getTimerDuration`.
- `shuffle.dfy` (module `Shuffle`): `shuffleArray`, a Fisher-Yates loop over an
  array.
- `selection.dfy` (module `Selection`): `selectCardsWithBalance`, with its loops
  as methods proved against counting functions.
- `targets.dfy` (module `Targets`): `getRandomPlayers`, `createTeams` and
  `getDifficultyKey`.
- `session.dfy` (module `Session`): the `gameState` object, as a class whose
  methods are the handlers that update it, and the card dispatch of
  `displayCard`.

Randomness is a parameter. `Math.random()` is a stream `random: nat -> real` of
draws in [0, 1), consumed in the order the source calls it. The shuffle by
`sort(() => Math.random() - 0.5)` is a function `permute` about which only one
thing is known: it returns a reordering of its input.

Scores live in a plain JavaScript object. A player named `__proto__` never
gets a score entry there: the assignment goes to the inherited prototype setter,
which ignores numbers. The model's score map leaves that name out in the same
way.

Two behaviours of the code are kept as written, although a player may not
expect them:

- A single player can start a game. The second guard of `startGame` never fires;
  `Session.SecondGuardNeverFires` shows this.
- A deck asked for fewer than 3 cards, from a pool that has every minority
  category, is not small: the three quota picks already exceed the target, and
  `slice` with the negative remainder then keeps all but `3 - target` of the
  leftovers. The deck holds `max(pool + target - 3, 3)` cards, so 2 cards asked
  of a pool of 100 deal 99. `Selection.DeckOvershoot` shows this.

## Model

| member | source | states |
|---|---|---|
| Runtime.CeilTenth | src/game.js:154 | `Math.ceil(n * 0.10)` is the least integer `r` with `n <= 10 * r` |
| Runtime.SliceEnd | src/game.js:177 | the end index of `slice(0, end)` never passes the length of the array |
| Runtime.RandomIndex | src/game.js:169 | `Math.floor(Math.random() * n)` is a valid index into a collection of `n` elements |
| Runtime.SpaceRunSpec | src/game.js:79 | the white-space run from a position is all white space and stops at the end of the text or at a non-space |
| Runtime.SpaceRunExact | src/game.js:21 | a white-space run that stops where the white space stops is exactly what a greedy `\s*` consumes |
| Runtime.SpaceRunBackSpec | src/game.js:79 | the white-space run ending at a position is all white space and is preceded by the start of the text or by a non-space |
| Runtime.TrimStart | src/game.js:79 | `trimStart` returns a suffix of the text, drops only white space, and does not start with white space |
| Runtime.TrimEnd | src/game.js:79 | `trimEnd` returns a prefix of the text, drops only white space, and does not end with white space |
| Runtime.TrimSpan | src/game.js:79 | `trim` returns the slice `s[i..j]`, and everything outside that slice is white space |
| Runtime.TrimIsCore | src/game.js:79 | `trim` returns a part of the input framed by white space; the part neither starts nor ends with white space; it is empty exactly when the input is all white space |
| Runtime.TrimIdempotent | src/game.js:79 | trimming a trimmed name changes nothing |
| Runtime.DecimalString | src/game.js:125 | `${n}` of a natural number is a non-empty run of digits with no leading zero |
| Runtime.DecimalRoundTrip | src/game.js:39 | `parseInt` of the decimal rendering of `n` is `n` |
| Runtime.Lower | src/game.js:19 | lower-casing a character leaves no upper-case letter and leaves every other character unchanged |
| Runtime.LowerKeepsClasses | src/game.js:19 | lower-casing neither creates nor removes white space or digits |
| Runtime.LowerText | src/game.js:19 | `toLowerCase` keeps the length and lower-cases each character in place |
| Runtime.FilterOut | src/game.js:47 | `filter(p => !exclude.includes(p))` keeps every other element as often as it occurs and drops every excluded one |
| Runtime.FilterOutSpec | src/game.js:90 | a name survives the filter exactly when it was present and is not excluded |
| Collections.NoDupIffMultiplicity | src/game.js:81-82 | a roster has no duplicate exactly when each name occurs at most once |
| Collections.NoDupPermutation | src/game.js:48 | a reordered duplicate-free roster is still duplicate-free |
| Collections.NoDupPrefix | src/game.js:49 | a prefix of a duplicate-free roster is duplicate-free |
| Collections.NoDupAppend | src/game.js:81-82 | pushing a name not yet on the roster keeps the roster duplicate-free |
| TimePattern.WordAt | src/game.js:21 | a case-insensitive word match at a position lies inside the text |
| TimePattern.LowerCaseMatch | src/game.js:21 | for a lower-case pattern letter, a character matches under the `i` flag exactly when its lower case equals the letter |
| TimePattern.DigitRun | src/game.js:37 | the greedy `\d+` run from a position stays inside the text |
| TimePattern.DigitRunSpec | src/game.js:37 | the greedy digit run is all digits and stops at the end of the text or at a non-digit |
| TimePattern.DigitRunExact | src/game.js:37 | a digit run that stops where the digits stop is the greedy run |
| TimePattern.FirstAlternative | src/game.js:37 | the unit alternation reports the index of an alternative that matches at the position |
| TimePattern.FirstAlternativeSpec | src/game.js:37 | the alternation picks the first alternative that matches, and it fails only when none matches |
| TimePattern.FirstTimeIndex | src/game.js:37 | the search reports a position at or after its start where the matcher succeeds, and no position before it succeeds; it fails only when no position succeeds |
| TimePattern.DigitsInSlice | src/game.js:37 | the captured amount `match[1]` is made of digits only |
| TimePattern.UnitStartsWithLetter | src/game.js:40 | the unit group begins with `s`, `S`, `m` or `M` |
| TimePattern.MatchUnitSound | src/game.js:37 | when the unit step succeeds, a unit word stands where the match says |
| TimePattern.MatchUnitComplete | src/game.js:37 | the unit step succeeds whenever a unit word follows the spaces |
| TimePattern.MatchDigitsSound | src/game.js:37 | when the digits step succeeds, the text has digits, spaces and a unit word where the match says |
| TimePattern.MatchDigitsComplete | src/game.js:37 | the digits step succeeds whenever some split into digits, spaces and a unit exists |
| TimePattern.MatchSpacesSound | src/game.js:37 | when the spaces step succeeds, the text has at least one space, then digits, spaces and a unit |
| TimePattern.MatchSpacesComplete | src/game.js:37 | the spaces step succeeds whenever some split after `pendant` exists |
| TimePattern.MatchSpacesGroups | src/game.js:37 | the spaces step reports capture groups that lie in order after its start, give a valid split, and have a unit starting with `s` or `m` |
| TimePattern.MatchTimeAtSound | src/game.js:37 | when the matcher succeeds at a position, the pattern matches there with the reported capture groups |
| TimePattern.MatchTimeAtComplete | src/game.js:37 | whenever the pattern matches at a position, with any split of spaces and digits, the greedy matcher succeeds there with that same split; backtracking finds nothing else |
| TimePattern.MatchTimeAtIff | src/game.js:37 | the matcher succeeds at a position exactly when the pattern matches there |
| TimePattern.TimeMatchOfSpec | src/game.js:37 | `text.match` finds a match exactly when the pattern occurs, and returns the leftmost occurrence |
| TimePattern.LowerTextAlike | src/game.js:19 | a text and its lower case agree once lower-cased |
| TimePattern.ClassesAlike | src/game.js:21 | two characters with the same lower case are both white space or neither, and both digits or neither |
| TimePattern.SpacesAlike | src/game.js:21 | texts that lower-case alike have white space at the same places |
| TimePattern.DigitsAlike | src/game.js:21 | texts that lower-case alike have digits at the same places |
| TimePattern.WordAtAlike | src/game.js:21 | a case-insensitive word match holds in one text exactly when it holds in a text that lower-cases alike |
| TimePattern.UnitWordsLower | src/game.js:21 | the unit words are written in lower-case ASCII |
| TimePattern.UnitTailAlike | src/game.js:21 | the spaces and unit that end the pattern are found alike in both texts |
| TimePattern.DigitTailAlike | src/game.js:21 | the digits, spaces and unit of the pattern are found alike in both texts |
| TimePattern.SpaceTailAlike | src/game.js:21 | everything after `pendant` in the pattern is found alike in both texts |
| TimePattern.SplitAlike | src/game.js:21 | a split of the pattern holds in one text exactly when it holds in a text that lower-cases alike |
| TimePattern.TimePhraseIgnoresCase | src/game.js:21 | under the `i` flag, matching the lower-cased text is the same as matching the original text, at every position |
| Categorizer.ContainsSpec | src/game.js:25 | the keyword search succeeds exactly when the keyword occurs at some position |
| Categorizer.CategorizePriority | src/game.js:18-34 | each of the four tags holds exactly when its test passes and every earlier test fails. The tests, in priority order: the time phrase, a duel keyword, a group keyword, and otherwise `single` |
| Categorizer.TimerGroups | src/game.js:37-39 | the capture groups of a match lie inside the text, and the amount is all digits |
| Categorizer.MatchGroups | src/game.js:37-39 | a match at a given position has in-range capture groups, and its amount is all digits |
| Categorizer.TimerDurationSpec | src/game.js:36-44 | the timer is 30 when the text has no time phrase; otherwise it is the amount read at the leftmost phrase, multiplied by 60 when the unit starts with `m` |
| Categorizer.TimerDurationAt | src/game.js:36-43 | for a split at the leftmost phrase, the timer is that split's amount scaled by its unit |
| Categorizer.TimerDurationOfGroups | src/game.js:37-41 | when the match has given capture groups, the amount group holds digits only and the timer is its value, multiplied by 60 when the unit starts with `m` |
| Categorizer.LeftmostMatch | src/game.js:37 | at the leftmost phrase position, the match returns the capture groups of any split there |
| Categorizer.TimeBasedHasOwnDuration | src/game.js:36-43 | a card is tagged time-based exactly when its timer finds a phrase; other cards get the 30-second fallback |
| Shuffle.ShuffleArray | src/game.js:129-136 | the shuffled copy has the length and the elements of the input |
| Selection.CountOfAppend | src/game.js:177 | the category counts of a concatenation add up |
| Selection.CountOfAllOf | src/game.js:146-149 | a pile of one category counts all its cards in that category and none in the others |
| Selection.CountOfPermutation | src/game.js:179 | reordering a deck changes no category count |
| Selection.CountOfRemove | src/game.js:170 | taking one card out of a reserve lowers only the count of that card's category, by one |
| Selection.CountOfSingle | src/game.js:170 | a one-card sequence counts one card in its own category and none in the others |
| Selection.AllOfSubMultiset | src/game.js:170 | cards taken from a one-category reserve are all of that category |
| Selection.CountOfTotal | src/game.js:146-149 | every card falls in exactly one of the four categories |
| Selection.Quota | src/game.js:153-157 | each minority quota is at least 1 and at least a tenth of the target; it exceeds neither 1 nor a tenth of the target rounded up, whichever is larger |
| Selection.PicksWithinPool | src/game.js:166-172 | the quota loop never takes more cards than the pool holds |
| Selection.PooledUpdate | src/game.js:175 | replacing one reserve replaces its cards in the flattened reserves |
| Selection.SortedPile | src/game.js:159-164 | every card of a sorted reserve belongs to that reserve's category |
| Selection.SortedUpdate | src/game.js:170 | the reserves stay sorted when one pile is replaced by cards of that pile's category |
| Selection.PartitionedPush | src/game.js:146-149 | pushing the next card onto the pile of its category keeps the piles a partition of the cards seen so far |
| Selection.PartitionedCounts | src/game.js:146-149 | each category's pile holds exactly as many cards as the pool has in that category |
| Selection.OfCategoryCount | src/game.js:146-149 | the cards of one category, kept in order, number that category's count and are all of that category |
| Selection.OfCategoryPush | src/game.js:148 | reading one more card of the pool extends only the pile of that card's category, by that card |
| Selection.CategorizeAll | src/game.js:139-149 | the four piles are a partition of the pool by `categorizeAction`; each pile is the pool filtered to its category, in the pool's order |
| Selection.TakeRandom | src/game.js:167-171 | the `splice` loop takes exactly the requested number of cards out of the reserve; together, the taken cards and the rest are the reserve; one draw is consumed per card |
| Selection.TakeQuotas | src/game.js:159-172 | the quota loop takes `min(quota, cards of that category)` cards of each minority category and none of `single`; what is taken plus the reserves is the pool |
| Selection.QuotaStart | src/game.js:159-165 | before the quota loop, the result is empty and the reserves are the whole sorted pool |
| Selection.QuotaDone | src/game.js:172 | after three rounds of the quota loop, each minority category has its quota in the result |
| Selection.TakeStep | src/game.js:166-171 | one round of the quota loop keeps every card accounted for and fills that round's quota |
| Selection.AccountedStep | src/game.js:170 | moving cards from a reserve to the result loses or gains no card |
| Selection.QuotaCountsStep | src/game.js:166-171 | one round adds its quota to its own category's count and leaves the other counts as they were |
| Selection.MoveTaken | src/game.js:170 | the cards taken from a reserve count only toward that reserve's category |
| Selection.MoveAccounted | src/game.js:170 | the cards taken from a reserve, plus the rest of it, are the reserve |
| Selection.CountAfterTake | src/game.js:170 | appending cards taken from one reserve raises only that category's count, by their number |
| Selection.SelectCardsWithBalance | src/game.js:138-180 | the deck is drawn from the pool; each minority category gets at least its quota (or every card it has); the deck has the size the quota and `slice` arithmetic gives; a target that covers the pool deals all of it |
| Selection.FillAndShuffle | src/game.js:174-179 | topping up with shuffled leftovers and shuffling again keeps the deck drawn from the pool, keeps the quotas, gives the stated size, and deals the whole pool when the target covers it |
| Selection.FillMultiset | src/game.js:174-177 | the leftovers number the pool less the picks; the deck is the picks plus the `slice`d leftovers, drawn from the pool |
| Selection.CountsKept | src/game.js:177-179 | adding cards and reordering lowers no category count of the picks |
| Selection.PickedSize | src/game.js:166-174 | the quota picks number the sum of the three quotas taken |
| Selection.DeckSizeExact | src/game.js:152-177 | for a target from 3 up to the pool size, the deck has exactly the target size |
| Selection.DeckOvershoot | src/game.js:152-177 | below a target of 3, with every minority category present, the deck holds exactly `max(pool + target - 3, 3)` cards, more than asked |
| Targets.PrefixOfReordering | src/game.js:48-49 | a cut of a reordering has `min(count, available)` names, each of them available |
| Targets.GetRandomPlayersSpec | src/game.js:46-50 | the names drawn are `min(count, available)` roster members outside `exclude`; they are distinct when the roster is |
| Targets.CreateTeamsSpec | src/game.js:52-59 | the two teams together are the roster reordered, sized `ceil(n/2)` and `floor(n/2)`, and disjoint for a duplicate-free roster |
| Targets.DifficultyKeySpec | src/game.js:121-127 | a deck key exists exactly for casual levels 1-3 and for every level of the other type; different levels never share a key |
| Targets.IntStringInjective | src/game.js:125 | different levels render to different `caliente` suffixes |
| Targets.IntStringSign | src/game.js:125 | `${n}` starts with a minus sign exactly for negative levels |
| Session.SecondGuardNeverFires | src/game.js:183-191 | the "at least 2 players" alert is unreachable; the start stops exactly on an empty roster, and a single player starts a game |
| Session.PenaltyRecipient | src/game.js:293 | the player charged for a refused card is a roster member |
| Session.CardTargetSpec | src/game.js:220-240 | on a duplicate-free roster: a single card names a roster member; a duel names two different members, with the second `undefined` exactly for a one-player roster; a timed card gets its own duration |
| Session.AvailableIsRoster | src/game.js:47 | with no exclusion, the available players are as many as the roster |
| Session.PenaltyRecipientMayDiffer | src/game.js:226-294 | the player charged for refusing a single card is drawn afresh, so on any roster of two or more it can differ from the player the card named |
| Session.DrawFor | src/game.js:293 | every roster index is reached by some draw of `Math.random()` |
| Session.FilterOutMembers | src/game.js:90 | after removal, the removed name is gone, every other name keeps its presence, and no name gains occurrences |
| Session.Scored | src/game.js:83 | a roster name has a score entry exactly when it is not `__proto__` |
| Session.GameState.constructor | src/game.js:1-10 | the initial state: no players, no scores, casual game, difficulty 1, 20 cards, no deck, cursor at 0 |
| Session.GameState.Reset | src/game.js:417-426 | `resetGame` restores exactly the initial state |
| Session.GameState.AddPlayer | src/game.js:77-87 | a non-empty trimmed name not yet present joins the end of the roster with score 0 (no entry for `__proto__`), and the input box is cleared; otherwise nothing changes; the roster stays duplicate-free with one score per player other than `__proto__` |
| Session.GameState.RemovePlayer | src/game.js:89-93 | the name leaves the roster, which keeps its order, and its score entry, if any, is deleted; nothing else changes |
| Session.GameState.SelectGameType | src/game.js:105-106 | only the game type changes |
| Session.GameState.SelectDifficulty | src/game.js:113-114 | only the difficulty changes |
| Session.GameState.StartGame | src/game.js:182-204 | an empty roster stops the start and nothing changes. A missing deck stops it after the card count is recorded. Otherwise a balanced deck for a target of `min(cardCount, pool)` cards is dealt from the deck of the chosen difficulty: exactly that many when the target is at least 3, and possibly more below 3. The cursor goes to 0, and every score is reset to 0. The roster and the choices are kept |
| Session.GameState.ResetScores | src/game.js:202-204 | every player's score becomes 0 (a `__proto__` player still has none), and nothing else changes |
| Session.GameState.DisplayCard | src/game.js:210-222 | the end screen shows exactly when the cursor has passed the last card; otherwise the card shown is one from the deck |
| Session.GameState.HandleSwipe | src/game.js:287-302 | a left swipe adds the card's sips to the score of the drawn player, and only that score changes (none when the player is `__proto__`); a right swipe changes no score; either way the cursor moves on by one |

## Left out

- The DOM, the screens, `showScreen`, `updatePlayersList` and the HTML of `displayCard` are presentation only; the model returns the `Screen` value instead.
- `setupTimer` and the `timerInterval` field: the countdown uses browser timers. `Reset` does not model the `timerInterval` field.
- `setupCardSwipe`: touch and mouse gesture tracking. The model starts at the swipe direction it produces.
- The 300 ms `setTimeout` in `handleSwipe` is modelled as a synchronous step: the cursor moves within the same call. The `displayCard` that follows is `Session.GameState.DisplayCard`.
- `loadCardsData` and its `fetch` are I/O. The loaded data is a parameter of `StartGame`: either nothing, or a map from deck key to the `action` cards of that deck.
- Reading a property of `null` or `undefined` (no data loaded, or no deck for the key) throws a `TypeError`. This is modelled as the outcome `DataMissing`, after which nothing more changes.
- `showScores` and `endGame` only sort and render scores; the model keeps the scores and does not model the sorted display.
- `parseInt` of the card-count field is taken as an integer parameter. The `NaN` of an empty or non-numeric field is not modelled.
- Numbers are unbounded integers, not IEEE doubles. Sums of sips and timer durations never lose precision in the model.
- `toLowerCase` is modelled for ASCII and Latin-1 letters only. Other scripts and special casings (such as the dotted capital I) are out of scope.
- `Selection.SelectCardsWithBalance`: the contract says which cards may be dealt, how many of each minority category, and how many in all. It does not say the order, or which leftover cards are picked: those depend on the draws.
- `Shuffle.ShuffleArray`: the contract states a permutation of the input. It does not state which permutation the draws select, or that all permutations are equally likely.
- `Targets.GetRandomPlayersSpec` and `Targets.CreateTeamsSpec`: `sort(() => Math.random() - 0.5)` is an arbitrary reordering. The model makes no claim about the distribution it produces.
- `Session.GameState.HandleSwipe` requires a non-empty roster and a card under the cursor for a left swipe. The game screen only offers swipes while a card is shown, after a start that needs a player. Outside that, the source would add to `scores[undefined]` or read a property of `undefined`.
- `Session.GameState.AddPlayer` receives the input box's value as a parameter and returns its new value, instead of reading and writing the DOM element.
- `Session.GameState.SelectGameType` and `Session.GameState.SelectDifficulty` leave out the button highlighting.
